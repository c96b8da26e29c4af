/** What comes of asking for the next piece of a file, and which session the node's one timer makes ask again. */
module FileAsking {
  import opened InfoText
  import opened FileStore
  import opened FileManager
  import opened FileSafety
  import Bytes

  /** Every piece is had: the slot goes, and the other side is told so. */
  predicate GivenUp(nd: Node, nd': Node, id: nat, f: string) {
    && f in nd.store.files && (forall p <- nd.store.files[f].pieces :: p.state == Have)
    && nd' == nd.(slots := nd.slots - {(id, f)}, sent := nd.sent + [(id, FileRequestEnd(f))])
  }

  predicate FirstLacking(nd: Node, f: string, i: nat) {
    && f in nd.store.files && i < |nd.store.files[f].pieces| && nd.store.files[f].pieces[i].state == None
    && forall j | 0 <= j < i :: nd.store.files[f].pieces[j].state != None
  }

  /** Piece `i`, the first one neither had nor being fetched, is asked for, and the session's stream is on it, emptied,
      unless it was open already. */
  predicate AskedFor(nd: Node, nd': Node, id: nat, f: string, i: nat) {
    && FirstLacking(nd, f, i) && (id, f) in nd'.slots
    && var info, key := nd.store.files[f], (id, f);
    var closed := key !in nd.slots || nd.slots[key].stream.Closed?;
    && nd'.slots == nd.slots[key := nd'.slots[key]] && nd'.slots[key].piece == i
    && nd'.slots[key].stream == (if closed then Writing(i, 0) else nd.slots[key].stream)
    && nd'.slots[key].failed == !closed
    && nd' == nd.(
         sent := nd.sent + [(id, FileRequest(f, i))],
         slots := nd'.slots,
         store := nd.store.(
           files := nd.store.files[f := info.(pieces := info.pieces[i := info.pieces[i].(state := Open)])],
           pieces := if closed then nd.store.pieces[(f, i) := []] else nd.store.pieces))
  }

  /** Nothing can be asked for, though not every piece is had: the session asks again when the timer fires. */
  predicate Waits(nd: Node, nd': Node, id: nat, f: string) {
    && (f in nd.store.files ==>
          && (forall p <- nd.store.files[f].pieces :: p.state != None)
          && exists p <- nd.store.files[f].pieces :: p.state != Have)
    && nd' == nd.(timer := Bytes.Some((id, f)))
  }

  ghost predicate Outcome(nd: Node, nd': Node, id: nat, f: string) {
    GivenUp(nd, nd', id, f) || (exists i :: AskedFor(nd, nd', id, f, i)) || Waits(nd, nd', id, f)
  }

  /** A piece that is asked for has a number of 16 bits that is not the one for no piece. */
  ghost predicate Numbered(nd: Node, f: string) {
    forall i | FirstLacking(nd, f, i) :: i < 65535
  }

  lemma LackingIsFirst(nd: Node, f: string, i: nat)
    requires FirstLacking(nd, f, i)
    ensures i == FirstNone(nd.store.files[f].pieces)
  {
  }

  lemma NoneLacks(nd: Node, f: string)
    requires f in nd.store.files
    ensures var i, n := FirstNone(nd.store.files[f].pieces), |nd.store.files[f].pieces|;
            && (i < n <==> FirstLacking(nd, f, i))
            && (i == n <==> forall p <- nd.store.files[f].pieces :: p.state != None)
  {
  }

  lemma NumberedAt(nd: Node, f: string, i: nat)
    requires FirstLacking(nd, f, i)
    ensures Numbered(nd, f) <==> i < 65535
  {
    forall j | FirstLacking(nd, f, j)
      ensures j == i
    {
      LackingIsFirst(nd, f, i);
      LackingIsFirst(nd, f, j);
    }
  }

  /** A piece whose number does not fit is claimed, and either not asked for or asked for under another number. */
  lemma FarPiece(nd: Node, id: nat, f: string, i: nat)
    requires FirstLacking(nd, f, i) && i >= 65535
    ensures !Outcome(nd, RequestNext(nd, (id, f)), id, f) && !Numbered(nd, f)
  {
    var nd' := RequestNext(nd, (id, f));
    LackingIsFirst(nd, f, i);
    assert nd.store.files[f].pieces[i].state == None;
    assert !Complete(nd.store, f);
    assert nd'.store.files[f].pieces[i].state == Open;
    assert nd'.sent != nd.sent + [(id, FileRequest(f, i))] by {
      assert nd'.sent == nd.sent || nd'.sent[|nd.sent|] == (id, FileRequest(f, i % Bytes.U16_LIMIT));
      assert (nd.sent + [(id, FileRequest(f, i))])[|nd.sent|] == (id, FileRequest(f, i));
    }
    assert forall j | FirstLacking(nd, f, j) :: j == i;
    NumberedAt(nd, f, i);
  }

  /** Asking for the next piece has one of the three outcomes exactly when that piece has a number. */
  lemma AskingIffNumbered(nd: Node, id: nat, f: string)
    ensures Outcome(nd, RequestNext(nd, (id, f)), id, f) <==> Numbered(nd, f)
  {
    var key := (id, f);
    var nd' := RequestNext(nd, key);
    if Complete(nd.store, f) {
      assert GivenUp(nd, nd', id, f);
      assert forall i :: !FirstLacking(nd, f, i);
    } else if f !in nd.store.files {
      assert Waits(nd, nd', id, f);
    } else {
      NoneLacks(nd, f);
      var i := FirstNone(nd.store.files[f].pieces);
      if i == |nd.store.files[f].pieces| {
        assert Waits(nd, nd', id, f);
      } else if i < 65535 {
        assert i % Bytes.U16_LIMIT == i;
        assert AskedFor(nd, nd', id, f, i);
        NumberedAt(nd, f, i);
      } else {
        FarPiece(nd, id, f, i);
      }
    }
  }

  lemma SmallIsNumbered(nd: Node, f: string)
    requires Small(nd)
    ensures Numbered(nd, f)
  {
  }

  /** So it is when the timer fires, when the other side is ready, and when a piece has come. */
  lemma TimeoutAsks(nd: Node, id: nat, f: string)
    requires nd.timer == Bytes.Some((id, f))
    ensures Outcome(nd.(timer := Bytes.None), After(nd, Timeout), id, f) <==> Numbered(nd, f)
  {
    hide RequestNext, Outcome;
    AskingIffNumbered(nd.(timer := Bytes.None), id, f);
    assert forall i :: FirstLacking(nd.(timer := Bytes.None), f, i) <==> FirstLacking(nd, f, i);
  }

  lemma BeginAsks(nd: Node, id: nat, f: string)
    requires (id, f) in nd.slots
    ensures Outcome(nd, After(nd, Message(id, FileBegin(f))), id, f) <==> Numbered(nd, f)
  {
    hide RequestNext, Outcome;
    AskingIffNumbered(nd, id, f);
  }

  /** The piece that has come is closed and taken in first. */
  lemma EndAsks(nd: Node, id: nat, f: string)
    requires (id, f) in nd.slots
    ensures var slot := nd.slots[(id, f)];
            var ended := nd.(slots := nd.slots[(id, f) := slot.(stream := Closed, failed := slot.failed || slot.stream.Closed?)],
                             store := AddedPiece(nd.store, f, slot.piece));
            Outcome(ended, After(nd, Message(id, FileEnd(f))), id, f) <==> Numbered(ended, f)
  {
    hide RequestNext, Outcome, AddedPiece, Numbered;
    var slot := nd.slots[(id, f)];
    AskingIffNumbered(nd.(slots := nd.slots[(id, f) := slot.(stream := Closed, failed := slot.failed || slot.stream.Closed?)],
                          store := AddedPiece(nd.store, f, slot.piece)), id, f);
  }

  // ---------------------------------------------------------------- one timer for all sessions

  /** The events at which a session asks for a piece. */
  predicate Asks(e: Event, id: nat, f: string) {
    e == Message(id, FileBegin(f)) || e == Message(id, FileEnd(f))
  }

  lemma {:induction false} PackTimer(nd: Node, key: Key, credit: nat)
    requires key in nd.slots
    ensures Pack(nd, key, credit).timer == nd.timer
    decreases credit
  {
    if credit > 0 {
      var nd' := NextBody(nd, key);
      assert nd'.timer == nd.timer;
      hide NextBody;
      if !nd'.slots[key].stream.Closed? {
        PackTimer(nd', key, credit - 1);
      }
    }
  }

  lemma RequestTimer(nd: Node, key: Key)
    ensures RequestNext(nd, key).timer in {nd.timer, Bytes.Some(key)}
  {
    hide Complete, ClaimNone;
  }

  /** The timer is set only for a session that asks. */
  lemma TimerSetByAsking(nd: Node, e: Event)
    requires e != Timeout
    ensures After(nd, e).timer == nd.timer || exists id: nat, f: string :: Asks(e, id, f) && After(nd, e).timer == Bytes.Some((id, f))
  {
    match e
    case Message(id, msg) =>
      var key := (id, msg.fileId);
      if key in nd.slots {
        match msg
        case FileBegin(f) =>
          RequestTimer(nd, key);
          assert Asks(e, id, f);
        case FileRequest(f, piece) =>
          if Complete(nd.store, f) && (f, piece) in nd.store.pieces {
            PackTimer(nd.(slots := nd.slots[key := OpenForReading(nd.slots[key], piece, |nd.store.pieces[(f, piece)]|)]),
                      key, PACK_SIZE);
          }
        case FileEnd(f) =>
          EndIsRequest(nd, key);
          hide Handle;
          RequestTimer(Closing(nd, key).(store := AddedPiece(nd.store, f, nd.slots[key].piece)), key);
          assert Asks(e, id, f);
        case FileBodyResp(_) => PackTimer(nd, key, PACK_SIZE);
        case _ =>
      }
    case _ =>
  }

  /** A session that waits asks again when the timer next fires, if no other session or file asks before that. */
  lemma {:induction false} WaitingAsksAgain(nd: Node, events: seq<Event>, id: nat, f: string)
    requires nd.timer == Bytes.Some((id, f)) && Timeout !in events
    requires forall e <- events, id': nat, f': string | Asks(e, id', f') :: (id', f') == (id, f)
    ensures var s := AfterAll(nd, events);
            Outcome(s.(timer := Bytes.None), After(s, Timeout), id, f) <==> Numbered(s, f)
  {
    TimerStays(nd, events, id, f);
    hide *;
    TimeoutAsks(AfterAll(nd, events), id, f);
  }

  lemma {:induction false} TimerStays(nd: Node, events: seq<Event>, id: nat, f: string)
    requires nd.timer == Bytes.Some((id, f)) && Timeout !in events
    requires forall e <- events, id': nat, f': string | Asks(e, id', f') :: (id', f') == (id, f)
    ensures AfterAll(nd, events).timer == Bytes.Some((id, f))
  {
    hide After;
    if events != [] {
      var init, last := events[..|events| - 1], events[|events| - 1];
      assert last in events && forall e <- init :: e in events;
      TimerStays(nd, init, id, f);
      TimerSetByAsking(AfterAll(nd, init), last);
    }
  }

  function Timeouts(n: nat): seq<Event> {
    seq(n, _ => Timeout)
  }

  /** But a session that waits is forgotten when another one comes to wait: with every lacking piece on its way, after
      two sessions ask, one after the other, the timer asks for the second alone, however often it fires, and the first
      has been sent nothing. */
  lemma LaterWaitReplaces(nd: Node, id: nat, id': nat, f: string, n: nat)
    requires (id, f) in nd.slots && (id', f) in nd.slots && id != id' && f in nd.store.files
    requires forall p <- nd.store.files[f].pieces :: p.state != None
    requires exists p <- nd.store.files[f].pieces :: p.state != Have
    ensures AfterAll(nd, [Message(id, FileBegin(f))]) == nd.(timer := Bytes.Some((id, f)))
    ensures AfterAll(nd, [Message(id, FileBegin(f)), Message(id', FileBegin(f))] + Timeouts(n)) ==
            nd.(timer := Bytes.Some((id', f)))
  {
    var e, e' := Message(id, FileBegin(f)), Message(id', FileBegin(f));
    WaitsAgain(nd, id, f);
    AfterOne(nd, [], e);
    AfterOne(nd, [e], e');
    assert [] + [e] == [e] && [e] + [e'] == [e, e'];
    WaitsAgain(nd.(timer := Bytes.Some((id, f))), id', f);
    assert AfterAll(nd, [e, e']) == nd.(timer := Bytes.Some((id', f)));
    hide After;
    TimeoutsWait(nd, [e, e'], id', f, n);
  }

  lemma AfterOne(nd: Node, events: seq<Event>, e: Event)
    ensures AfterAll(nd, events + [e]) == After(AfterAll(nd, events), e)
  {
    assert (events + [e])[..|events|] == events;
    hide After;
  }

  /** Asking when nothing can be asked for only sets the timer. */
  lemma WaitsAgain(nd: Node, id: nat, f: string)
    requires f in nd.store.files && (forall p <- nd.store.files[f].pieces :: p.state != None)
    requires exists p <- nd.store.files[f].pieces :: p.state != Have
    ensures RequestNext(nd, (id, f)) == nd.(timer := Bytes.Some((id, f)))
    ensures (id, f) in nd.slots ==> After(nd, Message(id, FileBegin(f))) == nd.(timer := Bytes.Some((id, f)))
    ensures nd.timer == Bytes.Some((id, f)) ==> After(nd, Timeout) == nd
  {
    NoneLacks(nd, f);
    NoneLacks(nd.(timer := Bytes.None), f);
  }

  lemma {:induction false} TimeoutsWait(nd: Node, events: seq<Event>, id: nat, f: string, n: nat)
    requires f in nd.store.files && (forall p <- nd.store.files[f].pieces :: p.state != None)
    requires exists p <- nd.store.files[f].pieces :: p.state != Have
    requires AfterAll(nd, events) == nd.(timer := Bytes.Some((id, f)))
    ensures AfterAll(nd, events + Timeouts(n)) == nd.(timer := Bytes.Some((id, f)))
  {
    if n == 0 {
      assert events + Timeouts(0) == events;
    } else {
      TimeoutsWait(nd, events, id, f, n - 1);
      assert events + Timeouts(n) == events + Timeouts(n - 1) + [Timeout];
      AfterOne(nd, events + Timeouts(n - 1), Timeout);
      WaitsAgain(nd.(timer := Bytes.Some((id, f))), id, f);
    }
  }
}
