/** One node's part in the search for a file: what it records and sends on for each path message. */
module PathSearch {
  import opened Sequences

  type Id = string

  const MAX_TTL := 7

  /** The endpoint of a node stands for its address and port. */
  datatype PathMessage =
    | PathRequest(reqId: Id, ttl: nat, fileId: Id)
    | PathResponse(respId: Id, reqId: Id, responder: nat)
    | PathAddress(respId: Id, requester: nat)

  /** `from` is the session a request or response came by; 0 marks the node that created it. */
  datatype Entry = Entry(fileId: Id, from: nat)

  datatype Outgoing = Outgoing(session: nat, msg: PathMessage)

  /** Opening a file session: the requester prepares to fetch, the responder begins to serve. */
  datatype Event = Fetch(remote: nat, fileId: Id) | Serve(remote: nat, fileId: Id)

  datatype Outcome = Outcome(requests: map<Id, Entry>, sends: seq<Outgoing>, events: seq<Event>)

  function Others(sessions: seq<nat>, except: nat): seq<nat> {
    if sessions == [] then []
    else
      var rest, last := Others(sessions[..|sessions| - 1], except), sessions[|sessions| - 1];
      if last == except then rest else rest + [last]
  }

  function ToEach(ids: seq<nat>, msg: PathMessage): seq<Outgoing> {
    seq(|ids|, i requires 0 <= i < |ids| => Outgoing(ids[i], msg))
  }

  /** The message goes out on every session but one. */
  function Broadcast(sessions: seq<nat>, except: nat, msg: PathMessage): seq<Outgoing> {
    ToEach(Others(sessions, except), msg)
  }

  /** Starting a search. */
  function Originate(requests: map<Id, Entry>, sessions: seq<nat>, reqId: Id, fileId: Id): Outcome {
    Outcome(requests[reqId := Entry(fileId, 0)],
            Broadcast(sessions, 0, PathRequest(reqId, MAX_TTL, fileId)),
            [])
  }

  /** A request seen for the first time is recorded, and answered or sent on.  The hop count is pushed back
      before it is changed, so it travels unchanged, and it never stops a request. */
  function OnRequest(requests: map<Id, Entry>, sessions: seq<nat>, self: nat, holdsFile: bool, newId: Id,
                     via: nat, m: PathMessage): Outcome
    requires m.PathRequest?
  {
    if m.reqId in requests then Outcome(requests, [], [])
    else
      var recorded := requests[m.reqId := Entry("", via)];
      if holdsFile then
        Outcome(recorded[newId := Entry(m.fileId, 0)], [Outgoing(via, PathResponse(newId, m.reqId, self))], [])
      else Outcome(recorded, Broadcast(sessions, via, m), [])
  }

  /** A response is recorded and sent back the way the request came, or turned into the address message. */
  function OnResponse(requests: map<Id, Entry>, self: nat, via: nat, m: PathMessage): Outcome
    requires m.PathResponse?
  {
    if m.reqId !in requests then Outcome(requests, [], [])
    else
      var recorded := requests[m.respId := Entry(if m.respId in requests then requests[m.respId].fileId else "", via)];
      if recorded[m.reqId].from == 0 then
        Outcome(recorded, [Outgoing(via, PathAddress(m.respId, self))],
                [Fetch(m.responder, recorded[m.reqId].fileId)])
      else Outcome(recorded, [Outgoing(recorded[m.reqId].from, m)], [])
  }

  /** The address message follows the response back to where it was made. */
  function OnAddress(requests: map<Id, Entry>, m: PathMessage): Outcome
    requires m.PathAddress?
  {
    if m.respId !in requests then Outcome(requests, [], [])
    else if requests[m.respId].from == 0 then
      Outcome(requests, [], [Serve(m.requester, requests[m.respId].fileId)])
    else Outcome(requests, [Outgoing(requests[m.respId].from, m)], [])
  }

  function OnMessage(requests: map<Id, Entry>, sessions: seq<nat>, self: nat, holdsFile: bool, newId: Id,
                     via: nat, m: PathMessage): Outcome
  {
    match m
    case PathRequest(_, _, _) => OnRequest(requests, sessions, self, holdsFile, newId, via, m)
    case PathResponse(_, _, _) => OnResponse(requests, self, via, m)
    case PathAddress(_, _) => OnAddress(requests, m)
  }

  datatype SessionInfo = SessionInfo(id: nat, isConnected: bool, isActive: bool, isDefault: bool)

  /** The sessions a search uses: active ones that do not carry a file.  A node that starts a search uses only
      those that are connected. */
  predicate IsUsable(s: SessionInfo, starting: bool) {
    (starting ==> s.isConnected) && s.isActive && s.isDefault
  }

  function Usable(all: seq<SessionInfo>, starting: bool): seq<nat> {
    if all == [] then []
    else
      var rest, last := Usable(all[..|all| - 1], starting), all[|all| - 1];
      if IsUsable(last, starting) then rest + [last.id] else rest
  }

  /** The part of a node that handles path messages. */
  class PathManager {
    const self: nat
    var requests: map<Id, Entry>
    var sessions: seq<SessionInfo>
    var sent: seq<Outgoing>
    var events: seq<Event>

    constructor (self: nat)
      ensures this.self == self && requests == map[] && sessions == [] && sent == [] && events == []
    {
      this.self := self;
      requests, sessions, sent, events := map[], [], [], [];
    }

    /** The sessions to use. */
    method CollectOthers(except: nat, starting: bool) returns (ids: seq<nat>)
      ensures ids == Others(Usable(sessions, starting), except)
    {
      ids := [];
      assert sessions[..0] == [] && sessions[..|sessions|] == sessions;
      for i := 0 to |sessions|
        invariant ids == Others(Usable(sessions[..i], starting), except)
      {
        var s := sessions[i];
        UsableNext(sessions, i, starting);
        OthersNext(Usable(sessions[..i], starting), s.id, except);
        hide Others, Usable;
        if s.id == except || !IsUsable(s, starting) {
          continue;
        }
        ids := ids + [s.id];
      }
    }

    /** Collects the sessions to use, then sends on each of them. */
    method SendToOthers(except: nat, msg: PathMessage, starting: bool)
      modifies `sent
      ensures sent == old(sent) + Broadcast(Usable(sessions, starting), except, msg)
      ensures forall out <- sent[|old(sent)|..] ::
                && out.msg == msg && out.session != except
                && (exists i :: 0 <= i < |sessions| && sessions[i].id == out.session && sessions[i].isActive &&
                                sessions[i].isDefault && (starting ==> sessions[i].isConnected))
      ensures forall i | 0 <= i < |sessions| && sessions[i].isActive && sessions[i].isDefault &&
                         (starting ==> sessions[i].isConnected) && sessions[i].id != except ::
                Outgoing(sessions[i].id, msg) in sent[|old(sent)|..]
      ensures (forall i, j | 0 <= i < j < |sessions| :: sessions[i].id != sessions[j].id) ==>
                forall i, j | |old(sent)| <= i < j < |sent| :: sent[i] != sent[j]
    {
      BroadcastReaches(sessions, starting, except, msg);
      var ids := CollectOthers(except, starting);
      assert sent + ToEach(ids[..0], msg) == sent && ids[..|ids|] == ids;
      for i := 0 to |ids|
        invariant sent == old(sent) + ToEach(ids[..i], msg)
      {
        assert ToEach(ids[..i + 1], msg) == ToEach(ids[..i], msg) + [Outgoing(ids[i], msg)];
        sent := sent + [Outgoing(ids[i], msg)];
      }
    }

    method SendPathRequest(reqId: Id, fileId: Id)
      modifies `requests, `sent
      ensures var o := Originate(old(requests), Usable(sessions, true), reqId, fileId);
              requests == o.requests && sent == old(sent) + o.sends && o.events == []
    {
      requests := requests[reqId := Entry(fileId, 0)];
      SendToOthers(0, PathRequest(reqId, MAX_TTL, fileId), true);
    }

    /** Answers a request for a file this node holds, under a new id. */
    method SendResponse(id: nat, reqId: Id, fileId: Id, respId: Id)
      modifies `requests, `sent
      ensures requests == old(requests)[respId := Entry(fileId, 0)]
      ensures sent == old(sent) + [Outgoing(id, PathResponse(respId, reqId, self))]
    {
      requests := requests[respId := Entry(fileId, 0)];
      sent := sent + [Outgoing(id, PathResponse(respId, reqId, self))];
    }

    method UpdateRequest(m: PathMessage, id: nat, holdsFile: bool, newId: Id)
      requires m.PathRequest?
      modifies `requests, `sent
      ensures var o := OnRequest(old(requests), Usable(sessions, false), self, holdsFile, newId, id, m);
              requests == o.requests && sent == old(sent) + o.sends && o.events == []
    {
      if m.reqId !in requests {
        requests := requests[m.reqId := Entry("", id)];
        if holdsFile {
          SendResponse(id, m.reqId, m.fileId, newId);
          return;
        }
        var ttl := if m.ttl < MAX_TTL then MAX_TTL else m.ttl;
        if ttl <= 1 {
          return;
        }
        SendToOthers(id, m, false);
      }
    }

    method UpdateResponse(m: PathMessage, id: nat)
      requires m.PathResponse?
      modifies `requests, `sent, `events
      ensures var o := OnResponse(old(requests), self, id, m);
              requests == o.requests && sent == old(sent) + o.sends && events == old(events) + o.events
    {
      if m.reqId !in requests {
        return;
      }
      requests := requests[m.respId := Entry(if m.respId in requests then requests[m.respId].fileId else "", id)];
      if requests[m.reqId].from == 0 {
        events := events + [Fetch(m.responder, requests[m.reqId].fileId)];
        sent := sent + [Outgoing(id, PathAddress(m.respId, self))];
      } else {
        sent := sent + [Outgoing(requests[m.reqId].from, m)];
      }
    }

    method UpdateAddress(m: PathMessage)
      requires m.PathAddress?
      modifies `sent, `events
      ensures var o := OnAddress(requests, m);
              requests == o.requests && sent == old(sent) + o.sends && events == old(events) + o.events
    {
      if m.respId !in requests {
        return;
      }
      if requests[m.respId].from == 0 {
        events := events + [Serve(m.requester, requests[m.respId].fileId)];
      } else {
        sent := sent + [Outgoing(requests[m.respId].from, m)];
      }
    }

    method UpdatePathManager(m: PathMessage, id: nat, holdsFile: bool, newId: Id)
      modifies `requests, `sent, `events
      ensures var o := OnMessage(old(requests), Usable(sessions, false), self, holdsFile, newId, id, m);
              requests == o.requests && sent == old(sent) + o.sends && events == old(events) + o.events
    {
      match m
      case PathRequest(_, _, _) => UpdateRequest(m, id, holdsFile, newId);
      case PathResponse(_, _, _) => UpdateResponse(m, id);
      case PathAddress(_, _) => UpdateAddress(m);
    }
  }

  lemma UsableNext(all: seq<SessionInfo>, i: nat, starting: bool)
    requires i < |all|
    ensures Usable(all[..i + 1], starting) ==
            if IsUsable(all[i], starting) then Usable(all[..i], starting) + [all[i].id] else Usable(all[..i], starting)
  {
    assert all[..i + 1][..i] == all[..i];
  }

  lemma OthersNext(sessions: seq<nat>, id: nat, except: nat)
    ensures Others(sessions + [id], except) ==
            if id == except then Others(sessions, except) else Others(sessions, except) + [id]
  {
    assert (sessions + [id])[..|sessions|] == sessions;
  }

  /** The sessions used are all but one of those given, each once if they are distinct. */
  lemma {:induction false} OthersMember(sessions: seq<nat>, except: nat)
    ensures forall id :: id in Others(sessions, except) <==> id in sessions && id != except
    ensures Distinct(sessions) ==> Distinct(Others(sessions, except))
  {
    if sessions != [] {
      var init, last := sessions[..|sessions| - 1], sessions[|sessions| - 1];
      OthersMember(init, except);
      assert sessions == init + [last];
      if Distinct(sessions) && last != except {
        assert Distinct(init) && last !in init;
        assert last !in Others(init, except);
      }
    }
  }

  /** The sessions in use are, by number, the active ones that carry no file, and are connected when a search starts. */
  lemma {:induction false} UsableMember(all: seq<SessionInfo>, starting: bool)
    ensures forall id :: id in Usable(all, starting) <==>
              exists i :: 0 <= i < |all| && all[i].id == id && all[i].isActive && all[i].isDefault &&
                          (starting ==> all[i].isConnected)
    ensures (forall i, j | 0 <= i < j < |all| :: all[i].id != all[j].id) ==> Distinct(Usable(all, starting))
  {
    if all != [] {
      var init, last := all[..|all| - 1], all[|all| - 1];
      UsableMember(init, starting);
      assert all == init + [last];
      forall id | id in Usable(init, starting)
        ensures exists i :: 0 <= i < |init| && all[i].id == id && all[i].isActive && all[i].isDefault &&
                            (starting ==> all[i].isConnected)
      {
        var i :| 0 <= i < |init| && init[i].id == id && init[i].isActive && init[i].isDefault &&
                 (starting ==> init[i].isConnected);
        assert all[i] == init[i];
      }
      forall i | 0 <= i < |all| && all[i].isActive && all[i].isDefault && (starting ==> all[i].isConnected)
        ensures all[i].id in Usable(all, starting)
      {
        if i < |init| {
          assert init[i] == all[i];
        }
      }
      if forall i, j | 0 <= i < j < |all| :: all[i].id != all[j].id {
        forall i, j | 0 <= i < j < |init|
          ensures init[i].id != init[j].id
        {
          assert all[i].id != all[j].id;
        }
        assert forall i | 0 <= i < |init| :: all[i].id != last.id;
        assert last.id !in Usable(init, starting);
      }
    }
  }

  /** A broadcast puts the message, once, on every session in use but one, and on no other. */
  lemma BroadcastReaches(all: seq<SessionInfo>, starting: bool, except: nat, msg: PathMessage)
    ensures var sends := Broadcast(Usable(all, starting), except, msg);
            && (forall out <- sends ::
                  && out.msg == msg && out.session != except
                  && (exists i :: 0 <= i < |all| && all[i].id == out.session && all[i].isActive && all[i].isDefault &&
                                  (starting ==> all[i].isConnected)))
            && (forall i | 0 <= i < |all| && all[i].isActive && all[i].isDefault && (starting ==> all[i].isConnected) &&
                           all[i].id != except :: Outgoing(all[i].id, msg) in sends)
            && ((forall i, j | 0 <= i < j < |all| :: all[i].id != all[j].id) ==>
                  forall i, j | 0 <= i < j < |sends| :: sends[i] != sends[j])
  {
    var ids := Others(Usable(all, starting), except);
    var sends := Broadcast(Usable(all, starting), except, msg);
    UsableMember(all, starting);
    OthersMember(Usable(all, starting), except);
    hide Usable, Others;
    assert forall i | 0 <= i < |sends| :: sends[i].msg == msg && sends[i].session == ids[i] && ids[i] in ids;
    forall i | 0 <= i < |all| && all[i].isActive && all[i].isDefault && (starting ==> all[i].isConnected) &&
               all[i].id != except
      ensures Outgoing(all[i].id, msg) in sends
    {
      assert all[i].id in ids;
      var k :| 0 <= k < |ids| && ids[k] == all[i].id;
      assert sends[k] == Outgoing(all[i].id, msg);
    }
  }

  /** A request seen before changes nothing; nor does a response or an address whose id is not recorded here.  A response
      whose own id is recorded keeps the file recorded with it. */
  lemma UnknownIsDropped(requests: map<Id, Entry>, sessions: seq<nat>, self: nat, holdsFile: bool, newId: Id, via: nat,
                         m: PathMessage)
    ensures var o := OnMessage(requests, sessions, self, holdsFile, newId, via, m);
            && ((m.PathRequest? && m.reqId in requests) || (m.PathResponse? && m.reqId !in requests) ||
                (m.PathAddress? && m.respId !in requests) ==>
                  o.requests == requests && o.sends == [] && o.events == [])
            && (m.PathResponse? && m.reqId in requests && m.respId in requests ==>
                  o.requests[m.respId] == Entry(requests[m.respId].fileId, via))
  {
    hide Broadcast;
  }
}
