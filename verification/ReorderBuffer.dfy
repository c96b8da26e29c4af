/** The reorder buffer keyed by 16 bits of an id, against the same buffer keyed by the whole id. */
module ReorderBuffer {
  import opened Bytes
  import opened Frames
  import opened Protocol

  datatype WideInbox = WideInbox(lastGotId: nat, waiting: map<nat, Message>, queueIn: seq<Message>)

  function WideInsert(b: WideInbox, id: nat, m: Message): WideInbox {
    if id >= b.lastGotId + 1 then b.(waiting := b.waiting[id := m]) else b
  }

  function WideDrain(b: WideInbox): WideInbox
    decreases |b.waiting|
  {
    var id := b.lastGotId + 1;
    if id in b.waiting then WideDrain(WideInbox(id, b.waiting - {id}, b.queueIn + [b.waiting[id]])) else b
  }

  /** Each slot read as the one id of the next `SLOTS` that it can stand for. */
  function Widen(b: Inbox): WideInbox {
    WideInbox(b.lastGotId, Waiting(b.future, b.lastGotId), b.queueIn)
  }

  function Waiting(future: map<nat, Message>, got: nat): map<nat, Message> {
    map id: nat | got + 1 <= id <= got + SLOTS && id % SLOTS in future :: future[id % SLOTS]
  }

  lemma SlotsDiffer(i: nat, j: nat)
    requires i < j < i + SLOTS
    ensures i % SLOTS != j % SLOTS
  {
  }

  /** Storing agrees exactly for ids in the next `SLOTS`, and for those already delivered. */
  lemma InsertRefines(b: Inbox, id: nat, m: Message)
    ensures Widen(Insert(b, id, m)) == WideInsert(Widen(b), id, m) <==> id <= b.lastGotId + SLOTS
  {
    var got := b.lastGotId;
    if got + 1 <= id <= got + SLOTS {
      var narrow, wide := Widen(Insert(b, id, m)).waiting, WideInsert(Widen(b), id, m).waiting;
      forall k | got + 1 <= k <= got + SLOTS && k != id
        ensures k % SLOTS != id % SLOTS
      {
        if k < id { SlotsDiffer(k, id); } else { SlotsDiffer(id, k); }
      }
      assert narrow == wide;
    } else if id > got + SLOTS {
      assert id in WideInsert(Widen(b), id, m).waiting;
      assert id !in Widen(Insert(b, id, m)).waiting;
    }
  }

  /** The inbox after its next id has been delivered. */
  function DeliverNext(b: Inbox): Inbox
    requires (b.lastGotId + 1) % SLOTS in b.future
  {
    var slot := (b.lastGotId + 1) % SLOTS;
    Inbox(b.lastGotId + 1, b.future - {slot}, b.queueIn + [b.future[slot]])
  }

  lemma DeliverNextRefines(future: map<nat, Message>, got: nat)
    ensures Waiting(future - {(got + 1) % SLOTS}, got + 1) == Waiting(future, got) - {got + 1}
  {
    var slot := (got + 1) % SLOTS;
    var narrow, wide := Waiting(future - {slot}, got + 1), Waiting(future, got) - {got + 1};
    forall id: nat
      ensures id in narrow <==> id in wide
    {
      if got + 2 <= id <= got + SLOTS {
        SlotsDiffer(got + 1, id);
      } else if id == got + 1 + SLOTS {
        assert id % SLOTS == slot;
      }
    }
  }

  lemma {:induction false} DrainRefines(b: Inbox)
    ensures Widen(Drain(b)) == WideDrain(Widen(b))
    decreases |b.future|
  {
    var id := b.lastGotId + 1;
    if id % SLOTS in b.future {
      assert id in Widen(b).waiting && Widen(b).waiting[id] == b.future[id % SLOTS];
      DeliverNextRefines(b.future, b.lastGotId);
      DrainRefines(DeliverNext(b));
      hide Waiting;
      assert Widen(DeliverNext(b)) ==
             WideInbox(id, Widen(b).waiting - {id}, b.queueIn + [Widen(b).waiting[id]]);
    } else {
      assert id !in Widen(b).waiting;
      hide Waiting;
    }
  }

  function Accept(b: Inbox, id: nat, m: Message): Inbox {
    Drain(Insert(b, id, m))
  }

  function WideAccept(b: WideInbox, id: nat, m: Message): WideInbox {
    WideDrain(WideInsert(b, id, m))
  }

  /** Both buffers deliver the same messages and are left holding the same ones. */
  predicate Agrees(b: Inbox, id: nat, m: Message) {
    Widen(Accept(b, id, m)) == WideAccept(Widen(b), id, m)
  }

  /** Between handlers, accepting an id agrees with the full-width buffer exactly when it is at most `SLOTS`
      ahead of the last delivered one. */
  lemma AcceptRefines(b: Inbox, id: nat, m: Message)
    requires (b.lastGotId + 1) % SLOTS !in b.future
    ensures Agrees(b, id, m) <==> id <= b.lastGotId + SLOTS
  {
    if id <= b.lastGotId + SLOTS {
      InRangeAgrees(b, id, m);
    } else {
      TooFarAhead(b, id, m);
    }
  }

  lemma InRangeAgrees(b: Inbox, id: nat, m: Message)
    requires id <= b.lastGotId + SLOTS
    ensures Agrees(b, id, m)
  {
    InsertRefines(b, id, m);
    DrainRefines(Insert(b, id, m));
  }

  lemma TooFarAhead(b: Inbox, id: nat, m: Message)
    requires (b.lastGotId + 1) % SLOTS !in b.future && id > b.lastGotId + SLOTS
    ensures !Agrees(b, id, m)
  {
    var wide := WideInsert(Widen(b), id, m);
    assert wide.lastGotId + 1 !in wide.waiting;
    assert WideDrain(wide) == wide && id in wide.waiting;
    var narrow := Widen(Accept(b, id, m));
    if narrow.lastGotId == b.lastGotId {
      assert id !in narrow.waiting;
    }
  }

  datatype Arrival = Arrival(id: nat, msg: Message)

  function AcceptAll(b: Inbox, arrivals: seq<Arrival>): Inbox
    decreases |arrivals|
  {
    if arrivals == [] then b else AcceptAll(Accept(b, arrivals[0].id, arrivals[0].msg), arrivals[1..])
  }

  function WideAcceptAll(b: WideInbox, arrivals: seq<Arrival>): WideInbox
    decreases |arrivals|
  {
    if arrivals == [] then b else WideAcceptAll(WideAccept(b, arrivals[0].id, arrivals[0].msg), arrivals[1..])
  }

  /** Each arrival is at most `SLOTS` ahead of what has been delivered when it comes. */
  predicate InRange(b: Inbox, arrivals: seq<Arrival>)
    decreases |arrivals|
  {
    arrivals != [] ==>
      && arrivals[0].id <= b.lastGotId + SLOTS
      && InRange(Accept(b, arrivals[0].id, arrivals[0].msg), arrivals[1..])
  }

  /** Over any sequence of arrivals in range the two buffers deliver the same messages and hold the same ones. */
  lemma {:induction false} AcceptAllRefines(b: Inbox, arrivals: seq<Arrival>)
    requires InRange(b, arrivals)
    ensures Widen(AcceptAll(b, arrivals)) == WideAcceptAll(Widen(b), arrivals)
    decreases |arrivals|
  {
    if arrivals != [] {
      var a := arrivals[0];
      InRangeAgrees(b, a.id, a.msg);
      AcceptAllRefines(Accept(b, a.id, a.msg), arrivals[1..]);
    }
  }

  predicate Held(b: Inbox, id: nat) {
    id % SLOTS in b.future
  }

  lemma {:induction false} DrainTakes(b: Inbox, n: nat)
    requires n <= SLOTS && forall id | b.lastGotId + 1 <= id <= b.lastGotId + n :: Held(b, id)
    ensures Drain(b).lastGotId >= b.lastGotId + n
    decreases n
  {
    if n > 0 {
      assert Held(b, b.lastGotId + 1);
      var next := DeliverNext(b);
      forall id | next.lastGotId + 1 <= id <= next.lastGotId + (n - 1)
        ensures Held(next, id)
      {
        assert Held(b, id);
        SlotsDiffer(b.lastGotId + 1, id);
      }
      DrainTakes(next, n - 1);
    }
  }

  /** Every slot is taken but that of the next id. */
  predicate FullBut(b: Inbox) {
    forall slot | 0 <= slot < SLOTS && slot != (b.lastGotId + 1) % SLOTS :: slot in b.future
  }

  predicate SlotsOnly(b: Inbox) {
    forall slot <- b.future :: slot < SLOTS
  }

  /** With only the next id missing, accepting it delivers a whole window at once, which a 16-bit count cannot tell
      from nothing. */
  lemma FullWindowDelivers(b: Inbox, m: Message)
    requires FullBut(b)
    ensures Accept(b, b.lastGotId + 1, m).lastGotId >= b.lastGotId + SLOTS
  {
    var inserted := Insert(b, b.lastGotId + 1, m);
    forall id: nat | b.lastGotId + 1 <= id <= b.lastGotId + SLOTS
      ensures Held(inserted, id)
    {
      assert id % SLOTS == (b.lastGotId + 1) % SLOTS || id % SLOTS in b.future;
    }
    DrainTakes(inserted, SLOTS);
  }

  /** A drain delivers no more messages than the buffer holds. */
  lemma {:induction false} DrainAtMost(b: Inbox)
    ensures Drain(b).lastGotId <= b.lastGotId + |b.future|
    decreases |b.future|
  {
    if (b.lastGotId + 1) % SLOTS in b.future {
      assert |b.future| == |b.future - {(b.lastGotId + 1) % SLOTS}| + 1 by {
        TakenOut(b.future, (b.lastGotId + 1) % SLOTS);
      }
      DrainAtMost(DeliverNext(b));
    }
  }

  lemma TakenOut(future: map<nat, Message>, slot: nat)
    requires slot in future
    ensures |future - {slot}| + 1 == |future|
  {
    assert (future - {slot}).Keys == future.Keys - {slot};
  }

  lemma {:induction false} FewSlots(slots: set<nat>, n: nat)
    requires forall slot <- slots :: slot < n
    ensures |slots| <= n
    decreases n
  {
    if n > 0 {
      FewSlots(slots - {n - 1}, n - 1);
    }
  }

  /** Between handlers, accepting the next id delivers a whole window exactly when every other slot is taken. */
  lemma DeliversWindow(b: Inbox, m: Message)
    requires SlotsOnly(b) && (b.lastGotId + 1) % SLOTS !in b.future
    ensures Accept(b, b.lastGotId + 1, m).lastGotId <= b.lastGotId + SLOTS
    ensures Accept(b, b.lastGotId + 1, m).lastGotId == b.lastGotId + SLOTS <==> FullBut(b)
  {
    var next := (b.lastGotId + 1) % SLOTS;
    var inserted := Insert(b, b.lastGotId + 1, m);
    assert inserted.future.Keys == b.future.Keys + {next};
    DrainAtMost(inserted);
    FewSlots(inserted.future.Keys, SLOTS);
    if FullBut(b) {
      FullWindowDelivers(b, m);
    } else {
      var gap :| 0 <= gap < SLOTS && gap != next && gap !in b.future;
      FewSlots(inserted.future.Keys + {gap}, SLOTS);
    }
  }

  /** The next id sets free the one after it exactly when that is waiting. */
  lemma DeliversMore(b: Inbox, m: Message)
    ensures Accept(b, b.lastGotId + 1, m).lastGotId > b.lastGotId + 1 <==> (b.lastGotId + 2) % SLOTS in b.future
  {
    var next := DeliverNext(Insert(b, b.lastGotId + 1, m));
    SlotsDiffer(b.lastGotId + 1, b.lastGotId + 2);
    assert Accept(b, b.lastGotId + 1, m) == Drain(next);
    if (b.lastGotId + 2) % SLOTS in b.future {
      assert Drain(next) == Drain(DeliverNext(next));
    }
  }
}
