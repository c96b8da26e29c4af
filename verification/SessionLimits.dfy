/** Where a session's promises end: one id too many, a whole window at once, and a message too large. */
module SessionLimits {
  import opened Bytes
  import opened Frames
  import opened Protocol
  import opened SessionSafety
  import opened SessionTheorems
  import opened SessionRecovery
  import opened ReorderBuffer

  /** The messages of the run: the first one differs from all the others. */
  function Nth(i: nat): Message {
    Message(if i == 0 then 3 else 4, 0, [])
  }

  lemma Extend(run: seq<System>, s': System, act: Action)
    requires IsRun(run) && StepBy(Last(run), s', act)
    ensures IsRun(run + [s'])
  {
    var longer := run + [s'];
    forall i | 0 <= i < |longer| - 1
      ensures StepAt(longer, i)
    {
      if i < |run| - 1 {
        assert StepAt(run, i);
      } else {
        assert Step(longer[i], longer[i + 1]);
      }
    }
  }

  /** Only `a` has written anything numbered, and no more than `k` ids ahead of what `b` has delivered. */
  predicate Ahead(s: System, k: nat) {
    s.a.outbox.lastSentId <= s.b.inbox.lastGotId + k && s.b.outbox.lastSentId == 0
  }

  /** `a` has written `n` messages, all of them lost so far, and is ready to write. */
  predicate Sent(s: System, n: nat) {
    && s.a.connected && s.a.outbox.phase.Idle? && s.a.outbox.queueOut == [] && !s.a.acks.shouldPong
    && s.a.outbox.lastSentId == s.a.outbox.currentId == n == |s.a.outbox.accepted|
    && (forall i | 0 <= i < n :: s.a.outbox.accepted[i] == Nth(i) && Data(Nth(i), i + 1) in s.a.socket.frames)
    && s.b == PingTick(INITIAL)
  }

  lemma Connect(k: nat) returns (run: seq<System>)
    ensures IsRun(run) && Sent(Last(run), 0)
    ensures forall s <- run :: Ahead(s, k)
  {
    var s0 := System(INITIAL, INITIAL);
    var s1 := System(INITIAL, PingTick(INITIAL));
    var s2 := System(Receive(INITIAL, Ping), s1.b);
    Extend([s0], s1, DoPing);
    assert [s0] + [s1] == [s0, s1];
    assert Ping in s1.b.socket.frames;
    Extend([s0, s1], s2, DoReceive(Ping));
    run := [s0, s1] + [s2];
  }

  /** `a` sends a message and writes it out. */
  lemma WriteOne(run: seq<System>, n: nat, m: Message) returns (longer: seq<System>)
    requires IsRun(run) && Sent(Last(run), n) && n <= SLOTS && Sendable(m)
    ensures IsRun(longer) && run <= longer && |longer| == |run| + 3
    ensures var s, s' := Last(run), Last(longer);
            && s'.b == s.b && s'.a.socket.frames == s.a.socket.frames + [Data(m, n + 1)]
            && s'.a.outbox.accepted == s.a.outbox.accepted + [m]
            && s'.a.connected && s'.a.outbox.phase.Idle? && s'.a.outbox.queueOut == [] && !s'.a.acks.shouldPong
            && s'.a.outbox.lastSentId == s'.a.outbox.currentId == n + 1
            && AckedBase(s'.a.outbox) == AckedBase(s.a.outbox)
    ensures forall x <- longer[|run|..] :: x.b == Last(run).b && x.a.outbox.lastSentId <= n + 1
  {
    var s := Last(run);
    var queued := System(Send(s.a, m), s.b);
    Extend(run, queued, DoSend(m));
    var headed := System(WriteBody(queued.a), s.b);
    Extend(run + [queued], headed, DoHeaderWritten);
    var written := System(EndOfWriting(headed.a), s.b);
    Extend(run + [queued] + [headed], written, DoBodyWritten);
    longer := run + [queued] + [headed] + [written];
    assert longer[|run|..] == [queued, headed, written];
  }

  lemma SendOne(run: seq<System>, n: nat, k: nat) returns (longer: seq<System>)
    requires IsRun(run) && Sent(Last(run), n) && n <= SLOTS && n < k
    requires forall s <- run :: Ahead(s, k)
    ensures IsRun(longer) && Sent(Last(longer), n + 1)
    ensures forall s <- longer :: Ahead(s, k)
  {
    longer := WriteOne(run, n, Nth(n));
    var frames, frames' := Last(run).a.socket.frames, Last(longer).a.socket.frames;
    forall i | 0 <= i < n + 1
      ensures Last(longer).a.outbox.accepted[i] == Nth(i) && Data(Nth(i), i + 1) in frames'
    {
      if i < n {
        assert Data(Nth(i), i + 1) in frames;
      } else {
        assert frames'[|frames|] == Data(Nth(n), n + 1);
      }
    }
    forall s <- longer
      ensures Ahead(s, k)
    {
      assert s in run || s in longer[|run|..];
    }
  }

  lemma {:induction false} Burst(n: nat, k: nat) returns (run: seq<System>)
    requires n <= k && n <= SLOTS + 1
    ensures IsRun(run) && Sent(Last(run), n)
    ensures forall s <- run :: Ahead(s, k)
  {
    if n == 0 {
      run := Connect(k);
    } else {
      run := Burst(n - 1, k);
      run := SendOne(run, n - 1, k);
    }
  }

  /** In-order delivery fails as soon as one id more than `SLOTS` is ahead: there is a run, never further ahead
      than that, whose receiver delivers the last message sent as if it were the first. */
  lemma OneTooManyBreaksOrder() returns (run: seq<System>)
    ensures IsRun(run) && (forall s <- run :: Ahead(s, SLOTS + 1))
    ensures Last(run).b.inbox.queueIn == [Nth(SLOTS)]
    ensures |Last(run).a.outbox.accepted| == SLOTS + 1 && Last(run).a.outbox.accepted[0] == Nth(0)
    ensures !(Last(run).b.inbox.queueIn <= Last(run).a.outbox.accepted)
  {
    run := Burst(SLOTS + 1, SLOTS + 1);
    var s := Last(run);
    var f := Data(Nth(SLOTS), SLOTS + 1);
    var s' := System(s.a, Receive(s.b, f));
    Extend(run, s', DoReceive(f));
    assert (SLOTS + 1) % SLOTS == 1;
    var inserted := Insert(s.b.inbox, SLOTS + 1, Nth(SLOTS));
    assert Drain(inserted) == Inbox(1, map[], [Nth(SLOTS)]) by {
      assert inserted.future - {1} == map[];
    }
    run := run + [s'];
  }

  // ---------------------------------------------------------------- a whole window at once

  /** All of a window has been written, and `b` has received the ids from 2 to `k`. */
  predicate Filled(s: System, k: nat) {
    && s.a.outbox.lastSentId == SLOTS == |s.a.outbox.accepted|
    && (forall i | 0 <= i < SLOTS :: s.a.outbox.accepted[i] == Nth(i) && Data(Nth(i), i + 1) in s.a.socket.frames)
    && s.b.outbox.lastSentId == 0 && s.b.outbox.queueOut == [] && s.b.outbox.phase.Idle? && !s.b.acks.shouldPong
    && s.b.inbox.lastGotId == 0 && 1 !in s.b.inbox.future
    && forall id | 2 <= id <= k :: Held(s.b.inbox, id)
  }

  lemma ReceiveOne(s: System, k: nat) returns (s': System)
    requires 1 <= k < SLOTS && Filled(s, k)
    ensures StepBy(s, s', DoReceive(Data(Nth(k), k + 1))) && Filled(s', k + 1)
  {
    var f := Data(Nth(k), k + 1);
    s' := System(s.a, Receive(s.b, f));
    assert s'.b.inbox == Insert(s.b.inbox, k + 1, Nth(k));
    assert (k + 1) % SLOTS != 1;
    forall id | 2 <= id <= k + 1
      ensures Held(s'.b.inbox, id)
    {
      assert id <= k ==> Held(s.b.inbox, id);
    }
  }

  lemma {:induction false} Fill(k: nat) returns (run: seq<System>)
    requires 1 <= k <= SLOTS
    ensures IsRun(run) && Filled(Last(run), k)
    ensures forall s <- run :: Ahead(s, SLOTS)
  {
    if k == 1 {
      run := Burst(SLOTS, SLOTS);
    } else {
      run := Fill(k - 1);
      hide Filled, Sent;
      var s' := ReceiveOne(Last(run), k - 1);
      Extend(run, s', DoReceive(Data(Nth(k - 1), k)));
      FilledAhead(s', k);
      run := run + [s'];
    }
  }

  lemma FilledAhead(s: System, k: nat)
    requires Filled(s, k)
    ensures Ahead(s, SLOTS)
  {
  }

  lemma AheadIsWindowed(run: seq<System>)
    requires IsRun(run) && forall s <- run :: Ahead(s, SLOTS)
    ensures IsWindowedRun(run) && Windowed(Last(run))
  {
    assert forall i | 0 <= i < |run| :: run[i] in run;
  }

  lemma FilledIsFull(b: Inbox)
    requires b.lastGotId == 0 && forall id | 2 <= id <= SLOTS :: Held(b, id)
    ensures FullBut(b)
  {
    forall slot | 0 <= slot < SLOTS && slot != 1
      ensures slot in b.future
    {
      assert Held(b, if slot == 0 then SLOTS else slot);
    }
  }

  /** The first id comes last, and delivers everything. */
  lemma LastArrives(s: System, s': System)
    requires Filled(s, SLOTS) && Inv(s) && s' == System(s.a, Receive(s.b, Data(Nth(0), 1)))
    ensures StepBy(s, s', DoReceive(Data(Nth(0), 1))) && FullBut(s.b.inbox) && s.b.inbox.lastGotId == 0
    ensures s'.b.inbox.lastGotId == SLOTS && s'.b.inbox.queueIn == s'.a.outbox.accepted
  {
    FilledIsFull(s.b.inbox);
    assert s.a.outbox.accepted[0] == Nth(0) && Data(Nth(0), 1) in s.a.socket.frames;
    WindowDelivers(s.b.inbox, s.a.outbox.accepted);
    var up := s.b.(connected := true);
    ReadInbox(up, 1, Nth(0));
    FlushGrows(ReadData(up, 1, Nth(0)));
    hide FullBut, Inv, Drain, Insert, Held, ReadData, Flush;
  }

  lemma WindowDelivers(b: Inbox, sent: seq<Message>)
    requires Incoming(b, sent, SLOTS) && |sent| == SLOTS && b.lastGotId == 0 && FullBut(b) && Fits(sent[0])
    ensures Drain(Insert(b, 1, sent[0])).lastGotId == SLOTS && Drain(Insert(b, 1, sent[0])).queueIn == sent
  {
    AcceptKeeps(b, 1, sent, SLOTS);
    assert SlotsOnly(b);
    DeliversWindow(b, sent[0]);
    assert sent[..SLOTS] == sent;
  }

  /** An acknowledgement is lost when a whole window is delivered by one handler: there is a run, never more than
      `SLOTS` ids ahead, whose last step delivers `SLOTS` messages and announces none but the first of them. */
  lemma WholeWindowIsNotAnnounced() returns (run: seq<System>, s': System)
    ensures IsRun(run + [s']) && IsRun(run) && forall s <- run :: Ahead(s, SLOTS)
    ensures Last(run).b.inbox.lastGotId == 0 && s'.b.inbox.lastGotId == SLOTS
    ensures s'.b.inbox.queueIn == s'.a.outbox.accepted
    ensures !Announced(Last(run).b, s'.b)
  {
    run := Fill(SLOTS);
    s' := System(Last(run).a, Receive(Last(run).b, Data(Nth(0), 1)));
    RunKeeps(run, |run| - 1) by { AheadIsWindowed(run); }
    AheadIsWindowed(run);
    LastArrives(Last(run), s');
    hide *;
    Extend(run, s', DoReceive(Data(Nth(0), 1)));
    DeliveryAnnouncedUnlessFull(run, s', DoReceive(Data(Nth(0), 1)));
  }

  // ---------------------------------------------------------------- a message too large

  /** A body just too large for the reader once the id and the flag are on it. */
  const TOO_LARGE := Message(3, MAX_PACKET_SIZE, seq(MAX_PACKET_SIZE, _ => 0))

  /** One message too large: it is written, its frame changes nothing at the receiver, and no continuation delivers
      it. */
  lemma TooLargeIsLost() returns (run: seq<System>)
    ensures IsWindowedRun(run) && Last(run).a.outbox.accepted == [TOO_LARGE] && !Fits(TOO_LARGE)
    ensures Data(TOO_LARGE, 1) in Last(run).a.socket.frames && Last(run).a.outbox.lastSentId == 1
    ensures Receive(Last(run).b, Data(TOO_LARGE, 1)) == Last(run).b
    ensures !CanRecover(Last(run))
  {
    var start := Connect(SLOTS);
    run := WriteOne(start, 0, TOO_LARGE);
    forall s <- run
      ensures Ahead(s, SLOTS)
    {
      assert s in start || s in run[|start|..];
    }
    AheadIsWindowed(run);
    var frames := Last(start).a.socket.frames;
    assert Last(run).a.socket.frames[|frames|] == Data(TOO_LARGE, 1);
    RunKeeps(run, |run| - 1);
    assert TOO_LARGE in Last(run).a.outbox.accepted;
    hide IsRun, Receive;
    RecoversIffAllFit(run);
  }

  // ---------------------------------------------------------------- two ends that wait for each other

  /** One end after a ping has come, and after two messages, the first of which has been written. */
  function Started(e: Endpoint): Endpoint {
    Send(Send(Receive(e, Ping), Nth(0)), Nth(1))
  }

  function FirstWritten(e: Endpoint): Endpoint
    requires e.outbox.tempOut.Data?
  {
    EndOfWriting(WriteBody(e))
  }

  /** From an end that has sent only a ping: it ends up idle, with its second message queued. */
  lemma StartsAndStops(e: Endpoint)
    requires e == PingTick(INITIAL)
    ensures var sent := Started(e);
            && sent.outbox.phase.HeaderOut? && sent.outbox.tempOut == Data(Nth(0), 1)
            && sent.outbox.queueOut == [Data(Nth(1), 2)] && sent.socket.frames == [Ping]
            && var done := FirstWritten(sent);
            && done.outbox.phase.Idle? && done.connected && done.outbox.queueOut == [Data(Nth(1), 2)]
            && done.outbox.accepted == [Nth(0), Nth(1)] && done.outbox.currentId == 2
            && done.outbox.lastSentId == 1 && done.inbox == INITIAL.inbox && done.socket.frames == [Ping, Data(Nth(0), 1)]
  {
    assert [Ping] + [Data(Nth(0), 1)] == [Ping, Data(Nth(0), 1)];
  }

  /** `a` hears the ping of `b`, sends two messages and writes the first. */
  lemma OneEndStarts(run: seq<System>) returns (longer: seq<System>)
    requires IsRun(run) && Last(run).a == PingTick(INITIAL) && Ping in Last(run).b.socket.frames
    ensures IsRun(longer) && run <= longer && |longer| == |run| + 5
    ensures Last(longer) == System(FirstWritten(Started(Last(run).a)), Last(run).b)
    ensures Started(Last(run).a).outbox.tempOut.Data?
    ensures forall x <- longer[|run|..] :: x.b == Last(run).b && x.a.outbox.lastSentId <= 1 && x.a.inbox == INITIAL.inbox
  {
    var a, b := Last(run).a, Last(run).b;
    StartsAndStops(a);
    hide IsRun;
    var s1 := System(Receive(a, Ping), b);
    var s2 := System(Send(s1.a, Nth(0)), b);
    var s3 := System(Send(s2.a, Nth(1)), b);
    var s4 := System(WriteBody(s3.a), b);
    var s5 := System(EndOfWriting(s4.a), b);
    assert s1.a.outbox.currentId == 0 && s2.a.outbox.currentId == 1;
    Extend(run, s1, DoReceive(Ping));
    Extend(run + [s1], s2, DoSend(Nth(0)));
    Extend(run + [s1] + [s2], s3, DoSend(Nth(1)));
    Extend(run + [s1] + [s2] + [s3], s4, DoHeaderWritten);
    Extend(run + [s1] + [s2] + [s3] + [s4], s5, DoBodyWritten);
    longer := run + [s1] + [s2] + [s3] + [s4] + [s5];
    assert longer[|run|..] == [s1, s2, s3, s4, s5];
  }

  /** No end is far ahead of what the other has delivered. */
  predicate Early(s: System) {
    s.a.outbox.lastSentId <= 1 && s.b.outbox.lastSentId <= 1
  }

  lemma BothPing() returns (run: seq<System>)
    ensures IsRun(run) && Last(run) == System(PingTick(INITIAL), PingTick(INITIAL)) && forall s <- run :: Early(s)
    ensures Ping in PingTick(INITIAL).socket.frames
  {
    var s0 := System(INITIAL, INITIAL);
    var s1 := System(PingTick(INITIAL), INITIAL);
    var s2 := System(PingTick(INITIAL), PingTick(INITIAL));
    Extend([s0], s1, DoPing);
    assert [s0] + [s1] == [s0, s1];
    Extend([s0, s1], s2, DoPing);
    run := [s0, s1] + [s2];
  }

  lemma WindowedIsRun(run: seq<System>)
    requires IsWindowedRun(run)
    ensures IsRun(run)
  {
  }

  /** Where both ends have come to. */
  lemma IsStuck(s: System)
    requires Started(PingTick(INITIAL)).outbox.tempOut.Data?
    requires s == System(FirstWritten(Started(PingTick(INITIAL))), FirstWritten(Started(PingTick(INITIAL))))
    ensures Stuck(s) && FewOutstanding(s)
    ensures s.a.outbox.accepted == s.b.outbox.accepted == [Nth(0), Nth(1)]
  {
    StartsAndStops(PingTick(INITIAL));
    hide Started, FirstWritten;
  }

  /** Each end sends two messages, and the first ones are lost: from there neither end ever recovers by itself, though
      every message fits and four are all there are. */
  lemma BothQueuedIsStuck() returns (run: seq<System>)
    ensures IsWindowedRun(run) && FewOutstanding(Last(run))
    ensures Last(run).a.outbox.accepted == Last(run).b.outbox.accepted == [Nth(0), Nth(1)]
    ensures Fits(Nth(0)) && Fits(Nth(1))
    ensures !CanRecover(Last(run)) && !CanRecoverOther(Last(run))
  {
    var pinged := BothPing();
    StartsAndStops(PingTick(INITIAL));
    hide Started, FirstWritten, PingTick, IsWindowedRun, IsRun, Receive, Stuck;
    var one := OneEndStarts(pinged);
    EarlyPart(pinged, one);
    AllEarly(one);
    MirrorRun(one);
    MirrorEarly(one);
    WindowedIsRun(MirrorAll(one));
    var two := OneEndStarts(MirrorAll(one));
    EarlyPart(MirrorAll(one), two);
    AllEarly(two);
    MirrorRun(two);
    run := MirrorAll(two);
    IsStuck(Last(run));
    StuckIsLost(Last(run));
  }

  lemma EarlyPart(run: seq<System>, longer: seq<System>)
    requires run != [] && run <= longer && (forall s <- run :: Early(s))
    requires forall x <- longer[|run|..] :: x.b == Last(run).b && x.a.outbox.lastSentId <= 1
    ensures forall s <- longer :: Early(s)
  {
    forall s <- longer
      ensures Early(s)
    {
      assert s in run || s in longer[|run|..];
      assert Last(run) in run;
    }
  }

  lemma AllEarly(run: seq<System>)
    requires IsRun(run) && forall s <- run :: Early(s)
    ensures IsWindowedRun(run)
  {
    assert forall i | 0 <= i < |run| :: run[i] in run;
  }

  lemma MirrorEarly(run: seq<System>)
    requires forall s <- run :: Early(s)
    ensures forall s <- MirrorAll(run) :: Early(s)
  {
    forall s <- MirrorAll(run)
      ensures Early(s)
    {
      var i :| 0 <= i < |run| && s == Mirror(run[i]);
      assert run[i] in run;
    }
  }
}
