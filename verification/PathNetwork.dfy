/** A file search over a network of nodes: the flood of a request, and the way of each response back. */
module PathNetwork {
  import opened Sequences
  import opened PathSearch

  /** One end of a session: a node and the number the session has there. */
  datatype Port = Port(node: nat, session: nat)

  /** `links` joins the two ends of each session; `sessions` lists the sessions of each node, and `holds` which
      node has which file. */
  datatype Topology = Topology(links: map<Port, Port>, sessions: map<nat, seq<SessionInfo>>, holds: set<(nat, Id)>)

  function Infos(top: Topology, n: nat): seq<SessionInfo> {
    if n in top.sessions then top.sessions[n] else []
  }

  /** The sessions a node passes a request on by, and those it starts a search by. */
  function SessionsOf(top: Topology, n: nat): seq<nat> {
    Usable(Infos(top, n), false)
  }

  function StartSessions(top: Topology, n: nat): seq<nat> {
    Usable(Infos(top, n), true)
  }

  /** Links go both ways, and join the active sessions that carry no file, all of which are connected; the sessions of a
      node have different numbers. */
  ghost predicate Wired(top: Topology) {
    && (forall p <- top.links :: p.session != 0 && top.links[p] in top.links && top.links[top.links[p]] == p)
    && (forall n: nat, session: nat ::
          Port(n, session) in top.links <==>
          exists i :: 0 <= i < |Infos(top, n)| && Infos(top, n)[i].id == session && Infos(top, n)[i].isActive &&
                      Infos(top, n)[i].isDefault)
    && (forall n: nat, i | 0 <= i < |Infos(top, n)| && Infos(top, n)[i].isActive && Infos(top, n)[i].isDefault ::
          Infos(top, n)[i].isConnected)
    && (forall n: nat, i, j | 0 <= i < j < |Infos(top, n)| :: Infos(top, n)[i].id != Infos(top, n)[j].id)
  }

  /** The same, in terms of the sessions in use. */
  ghost predicate TopologyOk(top: Topology) {
    && (forall p <- top.links :: p.session != 0 && top.links[p] in top.links && top.links[top.links[p]] == p)
    && (forall n: nat, s: nat :: s in SessionsOf(top, n) <==> Port(n, s) in top.links)
    && (forall n: nat :: Distinct(SessionsOf(top, n)))
    && (forall n: nat :: StartSessions(top, n) == SessionsOf(top, n))
  }

  lemma WiredIsOk(top: Topology)
    requires Wired(top)
    ensures TopologyOk(top)
  {
    forall n: nat
      ensures forall s: nat :: s in SessionsOf(top, n) <==> Port(n, s) in top.links
      ensures Distinct(SessionsOf(top, n)) && StartSessions(top, n) == SessionsOf(top, n)
    {
      UsableMember(Infos(top, n), false);
      SameWhenConnected(Infos(top, n));
      hide Usable, Infos;
    }
  }

  lemma StartsAlike(top: Topology, n: nat)
    requires TopologyOk(top)
    ensures StartSessions(top, n) == SessionsOf(top, n)
  {
  }

  lemma {:induction false} SameWhenConnected(all: seq<SessionInfo>)
    requires forall i | 0 <= i < |all| && all[i].isActive && all[i].isDefault :: all[i].isConnected
    ensures Usable(all, true) == Usable(all, false)
  {
    if all != [] {
      SameWhenConnected(all[..|all| - 1]);
    }
  }

  datatype Packet = Packet(to: Port, msg: PathMessage)

  /** How far a response has come: on its way back as packet `k`; its address message on its way forth as packet
      `k`, with `left` nodes of the trail still ahead; or done. */
  datatype Stage = Back(k: nat) | Forth(k: nat, left: nat) | Done

  /** A response: the request it answers, the nodes it has visited from its responder on, and its stage. */
  datatype Journey = Journey(reqId: Id, trail: seq<nat>, stage: Stage)

  /** A search: its file, and the nodes that have recorded it, in the order they did. */
  datatype Search = Search(fileId: Id, order: seq<nat>)

  /** `sent` lists every packet ever sent, and `handled` the numbers of those that have been handled.  `searches`
      and `journeys` are histories; `events` lists what each node was told to open. */
  datatype State = State(
    tables: map<nat, map<Id, Entry>>,
    sent: seq<Packet>,
    handled: set<nat>,
    searches: map<Id, Search>,
    journeys: map<Id, Journey>,
    events: seq<(nat, Event)>)

  const EMPTY := State(map[], [], {}, map[], map[], [])

  function Table(s: State, n: nat): map<Id, Entry> {
    if n in s.tables then s.tables[n] else map[]
  }

  predicate Used(s: State, id: Id) {
    id in s.searches || id in s.journeys
  }

  predicate Sendable(top: Topology, n: nat, o: Outcome) {
    forall out <- o.sends :: Port(n, out.session) in top.links
  }

  function Packets(top: Topology, n: nat, o: Outcome): seq<Packet>
    requires Sendable(top, n, o)
  {
    seq(|o.sends|, i requires 0 <= i < |o.sends| =>
      Packet(top.links[Port(n, o.sends[i].session)], o.sends[i].msg))
  }

  /** Packet `k` has been sent and not yet handled. */
  predicate Pending(s: State, k: nat) {
    k < |s.sent| && k !in s.handled
  }

  function Tag(n: nat, events: seq<Event>): seq<(nat, Event)> {
    seq(|events|, i requires 0 <= i < |events| => (n, events[i]))
  }

  /** A node's table, packets and events after one of its handlers. */
  function Apply(top: Topology, s: State, n: nat, o: Outcome): State
    requires Sendable(top, n, o)
  {
    s.(tables := s.tables[n := o.requests],
       sent := s.sent + Packets(top, n, o),
       events := s.events + Tag(n, o.events))
  }

  /** Node `n` starts a search under an id never used before. */
  ghost predicate Starts(top: Topology, s: State, s': State, n: nat, reqId: Id, fileId: Id) {
    var o := Originate(Table(s, n), StartSessions(top, n), reqId, fileId);
    && !Used(s, reqId) && Sendable(top, n, o)
    && s' == Apply(top, s, n, o).(searches := s.searches[reqId := Search(fileId, [n])])
  }

  /** Packet `p` at its node, with `newId` for a response. */
  function Handle(top: Topology, s: State, p: Packet, newId: Id): Outcome {
    OnMessage(Table(s, p.to.node), SessionsOf(top, p.to.node), p.to.node,
              p.msg.PathRequest? && (p.to.node, p.msg.fileId) in top.holds, newId, p.to.session, p.msg)
  }

  /** The searches after `p` has been handled: a node that records a request joins its order. */
  function Searches(s: State, p: Packet): map<Id, Search> {
    if p.msg.PathRequest? && p.msg.reqId !in Table(s, p.to.node) && p.msg.reqId in s.searches then
      var q := s.searches[p.msg.reqId];
      s.searches[p.msg.reqId := q.(order := q.order + [p.to.node])]
    else s.searches
  }

  /** The journeys after `p` has been handled. */
  function Journeys(top: Topology, s: State, p: Packet, newId: Id): map<Id, Journey> {
    var n := p.to.node;
    match p.msg
    case PathRequest(reqId, _, fileId) =>
      if reqId !in Table(s, n) && (n, fileId) in top.holds then
        s.journeys[newId := Journey(reqId, [n], Back(|s.sent|))]
      else s.journeys
    case PathResponse(respId, reqId, _) =>
      if reqId in Table(s, n) && respId in s.journeys then
        var j := s.journeys[respId];
        s.journeys[respId := Journey(j.reqId, j.trail + [n],
                                     if Table(s, n)[reqId].from == 0 then Forth(|s.sent|, |j.trail|)
                                     else Back(|s.sent|))]
      else s.journeys
    case PathAddress(respId, _) =>
      if respId in Table(s, n) && respId in s.journeys then
        var j := s.journeys[respId];
        s.journeys[respId := j.(stage :=
          if Table(s, n)[respId].from == 0 || !j.stage.Forth? || j.stage.left == 0 then Done
          else Forth(|s.sent|, j.stage.left - 1))]
      else s.journeys
  }

  /** Packet `k` reaches its node and is handled; the id for a response is never used before. */
  ghost predicate Delivers(top: Topology, s: State, s': State, k: nat, newId: Id) {
    && Pending(s, k) && !Used(s, newId)
    && var p := s.sent[k];
    && var o := Handle(top, s, p, newId);
    && Sendable(top, p.to.node, o)
    && s' == Apply(top, s.(handled := s.handled + {k}), p.to.node, o)
             .(searches := Searches(s, p), journeys := Journeys(top, s, p, newId))
  }

  ghost predicate Step(top: Topology, s: State, s': State) {
    || (exists n: nat, reqId: Id, fileId: Id :: Starts(top, s, s', n, reqId, fileId))
    || (exists k: nat, newId: Id :: Delivers(top, s, s', k, newId))
  }

  // ---------------------------------------------------------------- invariant

  /** The place of a node in the order of recording. */
  function Pos(order: seq<nat>, n: nat): (i: nat)
    requires n in order
    ensures i < |order| && order[i] == n
  {
    if order[|order| - 1] == n then |order| - 1 else Pos(order[..|order| - 1], n)
  }

  function Origin(q: Search): nat
    requires q.order != []
  {
    q.order[0]
  }

  /** The port a node would send back on, and the port at the other end. */
  function BackPort(s: State, n: nat, id: Id): Port
    requires id in Table(s, n)
  {
    Port(n, Table(s, n)[id].from)
  }

  /** Every node but the originator points to a session by which an earlier node passed it the request. */
  ghost predicate SearchOk(top: Topology, s: State, id: Id)
    requires id in s.searches
  {
    var q := s.searches[id];
    && q.order != [] && Distinct(q.order)
    && (forall n: nat :: n in q.order <==> id in Table(s, n))
    && Table(s, Origin(q))[id] == Entry(q.fileId, 0)
    && (forall n <- q.order | n != Origin(q) :: PointsBack(top, s, id, n))
  }

  ghost predicate PointsBack(top: Topology, s: State, id: Id, n: nat)
    requires id in s.searches && id in Table(s, n)
  {
    var order := s.searches[id].order;
    && BackPort(s, n, id) in top.links
    && var parent := top.links[BackPort(s, n, id)].node;
    n in order && parent in order && Pos(order, parent) < Pos(order, n) && Forwards(top, s.searches[id], parent)
  }

  /** A node that does not hold the file passes a request on; the originator always does. */
  predicate Forwards(top: Topology, q: Search, n: nat)
    requires q.order != []
  {
    n == Origin(q) || (n, q.fileId) !in top.holds
  }

  ghost predicate SpreadOk(top: Topology, s: State, id: Id)
    requires id in s.searches && s.searches[id].order != []
  {
    var q := s.searches[id];
    forall n: nat <- q.order, session: nat <- SessionsOf(top, n) |
      Forwards(top, q, n) && id in Table(s, n) && session != Table(s, n)[id].from && Port(n, session) in top.links ::
      Packet(top.links[Port(n, session)], PathRequest(id, MAX_TTL, q.fileId)) in s.sent
  }

  ghost predicate AnsweredOk(top: Topology, s: State, id: Id)
    requires id in s.searches && s.searches[id].order != []
  {
    var q := s.searches[id];
    forall n <- q.order | !Forwards(top, q, n) :: HasAnswered(s, id, n)
  }

  ghost predicate HasAnswered(s: State, id: Id, n: nat) {
    exists r <- s.journeys :: s.journeys[r].reqId == id && s.journeys[r].trail != [] && s.journeys[r].trail[0] == n
  }

  ghost predicate PacketOk(top: Topology, s: State, k: nat)
    requires k < |s.sent|
  {
    var p := s.sent[k];
    && p.to in top.links
    && match p.msg
       case PathRequest(id, ttl, fileId) => RequestOk(top, s, id, p) && (k in s.handled ==> id in Table(s, p.to.node))
       case PathResponse(r, _, _) => r in s.journeys && (k !in s.handled ==> s.journeys[r].stage == Back(k))
       case PathAddress(r, _) =>
         r in s.journeys && (k !in s.handled ==> s.journeys[r].stage.Forth? && s.journeys[r].stage.k == k)
  }

  /** A request comes from a node that has recorded it and passes it on, on a session it did not come by. */
  ghost predicate RequestOk(top: Topology, s: State, id: Id, p: Packet)
    requires p.to in top.links
  {
    var back := top.links[p.to];
    && id in s.searches && s.searches[id].order != []
    && p.msg == PathRequest(id, MAX_TTL, s.searches[id].fileId)
    && back.node in s.searches[id].order && Forwards(top, s.searches[id], back.node)
    && id in Table(s, back.node) && back.session != Table(s, back.node)[id].from
  }

  /** No two request packets of one search use the same session in the same direction. */
  ghost predicate OncePerPort(s: State) {
    forall j, k | 0 <= j < k < |s.sent| && s.sent[j].msg.PathRequest? && s.sent[k].msg.PathRequest? &&
                  s.sent[j].msg.reqId == s.sent[k].msg.reqId ::
      s.sent[j].to != s.sent[k].to
  }

  /** A response has followed the request's pointers, leaving pointers of its own the other way. */
  ghost predicate JourneyOk(top: Topology, s: State, r: Id)
    requires r in s.journeys
  {
    var j := s.journeys[r];
    && j.reqId in s.searches && SearchOk(top, s, j.reqId)
    && j.trail != []
    && (forall n <- j.trail :: n in s.searches[j.reqId].order)
    && (forall n: nat :: n in j.trail <==> r in Table(s, n))
    && !Forwards(top, s.searches[j.reqId], j.trail[0])
    && Table(s, j.trail[0])[r] == Entry(s.searches[j.reqId].fileId, 0)
    && (forall i | 0 < i < |j.trail| :: TrailStep(top, s, r, i))
    && StageOk(top, s, r)
  }

  ghost predicate TrailStep(top: Topology, s: State, r: Id, i: nat)
    requires r in s.journeys && 0 < i < |s.journeys[r].trail|
    requires forall n <- s.journeys[r].trail :: r in Table(s, n) && s.journeys[r].reqId in Table(s, n)
  {
    var t, id := s.journeys[r].trail, s.journeys[r].reqId;
    && BackPort(s, t[i - 1], id) in top.links
    && top.links[BackPort(s, t[i - 1], id)] == BackPort(s, t[i], r)
  }

  ghost predicate StageOk(top: Topology, s: State, r: Id)
    requires r in s.journeys && s.journeys[r].reqId in s.searches && s.journeys[r].trail != []
    requires s.searches[s.journeys[r].reqId].order != []
    requires forall n <- s.journeys[r].trail :: r in Table(s, n) && s.journeys[r].reqId in Table(s, n)
  {
    var j := s.journeys[r];
    var q, last := s.searches[j.reqId], j.trail[|j.trail| - 1];
    var fetch := (Origin(q), Fetch(j.trail[0], q.fileId));
    match j.stage
    case Back(k) =>
      && last != Origin(q) && Pending(s, k)
      && BackPort(s, last, j.reqId) in top.links
      && s.sent[k] == Packet(top.links[BackPort(s, last, j.reqId)], PathResponse(r, j.reqId, j.trail[0]))
    case Forth(k, left) =>
      && last == Origin(q) && 0 < left < |j.trail| && Pending(s, k)
      && BackPort(s, j.trail[left], r) in top.links
      && s.sent[k] == Packet(top.links[BackPort(s, j.trail[left], r)], PathAddress(r, Origin(q)))
      && fetch in s.events
    case Done =>
      && last == Origin(q) && fetch in s.events
      && (j.trail[0], Serve(Origin(q), q.fileId)) in s.events
  }

  /** A search with everything that holds of it. */
  ghost predicate SearchInv(top: Topology, s: State, id: Id) {
    id in s.searches && SearchOk(top, s, id) && SpreadOk(top, s, id) && AnsweredOk(top, s, id)
  }

  ghost predicate IdsOk(s: State) {
    && (forall id :: !(id in s.searches && id in s.journeys))
    && (forall n: nat, id <- Table(s, n) :: Used(s, id))
    && (forall k <- s.handled :: k < |s.sent|)
  }

  ghost predicate Inv(top: Topology, s: State) {
    && IdsOk(s)
    && (forall id <- s.searches :: SearchInv(top, s, id))
    && (forall k | 0 <= k < |s.sent| :: PacketOk(top, s, k))
    && OncePerPort(s)
    && (forall r <- s.journeys :: JourneyOk(top, s, r))
  }

  // ---------------------------------------------------------------- what other searches and responses keep

  /** Everything recorded for a search stays, and histories only grow. */
  ghost predicate Grows(s: State, s': State) {
    && s.sent <= s'.sent && s.handled <= s'.handled && s.events <= s'.events
    && (forall id <- s.searches ::
          id in s'.searches && s'.searches[id].fileId == s.searches[id].fileId
          && s.searches[id].order <= s'.searches[id].order)
    && (forall n: nat, id <- Table(s, n) :: id in Table(s', n) && Table(s', n)[id] == Table(s, n)[id])
    && (forall r <- s.journeys ::
          r in s'.journeys && s'.journeys[r].reqId == s.journeys[r].reqId
          && s.journeys[r].trail <= s'.journeys[r].trail)
  }

  /** No node records or forgets the id. */
  ghost predicate SameFor(s: State, s': State, id: Id) {
    forall n: nat :: id in Table(s', n) ==> id in Table(s, n)
  }

  lemma PosKeeps(order: seq<nat>, order': seq<nat>, n: nat)
    requires order <= order' && Distinct(order') && n in order
    ensures n in order' && Pos(order', n) == Pos(order, n)
  {
  }

  lemma PointsBackKeeps(top: Topology, s: State, s': State, id: Id, n: nat)
    requires Grows(s, s') && id in s.searches && id in Table(s, n) && PointsBack(top, s, id, n)
    requires Distinct(s'.searches[id].order)
    ensures id in Table(s', n) && PointsBack(top, s', id, n)
  {
    var order, order' := s.searches[id].order, s'.searches[id].order;
    var parent := top.links[BackPort(s, n, id)].node;
    PosKeeps(order, order', n);
    PosKeeps(order, order', parent);
  }

  /** A search nobody newly records. */
  lemma SearchKeeps(top: Topology, s: State, s': State, id: Id)
    requires Grows(s, s') && id in s.searches && SameFor(s, s', id)
    requires s'.searches[id] == s.searches[id]
    requires SearchInv(top, s, id)
    ensures SearchInv(top, s', id)
  {
    forall n <- s'.searches[id].order | n != Origin(s'.searches[id])
      ensures PointsBack(top, s', id, n)
    {
      PointsBackKeeps(top, s, s', id, n);
    }
    forall n <- s'.searches[id].order | !Forwards(top, s'.searches[id], n)
      ensures HasAnswered(s', id, n)
    {
      AnswerKeeps(s, s', id, n);
    }
  }

  lemma AnswerKeeps(s: State, s': State, id: Id, n: nat)
    requires Grows(s, s') && HasAnswered(s, id, n)
    ensures HasAnswered(s', id, n)
  {
    var r :| r in s.journeys && s.journeys[r].reqId == id && s.journeys[r].trail != [] && s.journeys[r].trail[0] == n;
    assert r in s'.journeys && s'.journeys[r].trail[0] == n;
  }

  /** A response that does not move, while its search may spread further. */
  lemma JourneyKeeps(top: Topology, s: State, s': State, r: Id)
    requires Grows(s, s') && r in s.journeys && JourneyOk(top, s, r)
    requires s'.journeys[r] == s.journeys[r] && SameFor(s, s', r)
    requires SearchOk(top, s', s.journeys[r].reqId)
    requires s.journeys[r].stage.Back? ==> s.journeys[r].stage.k !in s'.handled
    requires s.journeys[r].stage.Forth? ==> s.journeys[r].stage.k !in s'.handled
    ensures JourneyOk(top, s', r)
  {
    hide PointsBack, Pos;
    var j := s.journeys[r];
    assert s'.searches[j.reqId].order[0] == s.searches[j.reqId].order[0];
    forall i | 0 < i < |j.trail|
      ensures TrailStep(top, s', r, i)
    {
      assert TrailStep(top, s, r, i);
    }
    StageKeeps(top, s, s', r);
  }

  lemma StageKeeps(top: Topology, s: State, s': State, r: Id)
    requires Grows(s, s') && r in s.journeys && s'.journeys[r] == s.journeys[r]
    requires var j := s.journeys[r];
             && j.reqId in s.searches && j.trail != [] && s.searches[j.reqId].order != []
             && (forall n <- j.trail :: r in Table(s, n) && j.reqId in Table(s, n))
    requires StageOk(top, s, r)
    requires s.journeys[r].stage.Back? ==> s.journeys[r].stage.k !in s'.handled
    requires s.journeys[r].stage.Forth? ==> s.journeys[r].stage.k !in s'.handled
    ensures s'.searches[s.journeys[r].reqId].order != []
    ensures forall n <- s.journeys[r].trail :: r in Table(s', n) && s.journeys[r].reqId in Table(s', n)
    ensures StageOk(top, s', r)
  {
    assert s.searches[s.journeys[r].reqId].order[0] == s'.searches[s.journeys[r].reqId].order[0];
  }

  lemma RequestKeeps(top: Topology, s: State, s': State, id: Id, p: Packet)
    requires Grows(s, s') && p.to in top.links && RequestOk(top, s, id, p)
    ensures RequestOk(top, s', id, p)
  {
  }

  /** A packet that is not the one being handled. */
  lemma PacketKeeps(top: Topology, s: State, s': State, k: nat)
    requires Grows(s, s') && k < |s.sent| && PacketOk(top, s, k)
    requires k in s'.handled ==> k in s.handled
    requires s.sent[k].msg.PathResponse? && k !in s.handled ==>
               s'.journeys[s.sent[k].msg.respId].stage == s.journeys[s.sent[k].msg.respId].stage
    requires s.sent[k].msg.PathAddress? && k !in s.handled ==>
               s'.journeys[s.sent[k].msg.respId].stage == s.journeys[s.sent[k].msg.respId].stage
    ensures PacketOk(top, s', k)
  {
    if s.sent[k].msg.PathRequest? {
      RequestKeeps(top, s, s', s.sent[k].msg.reqId, s.sent[k]);
    }
  }

  // ---------------------------------------------------------------- broadcasting

  /** What a broadcast puts on the network: one packet for every session but one. */
  lemma BroadcastPackets(top: Topology, n: nat, except: nat, msg: PathMessage, o: Outcome)
    requires TopologyOk(top) && o.sends == Broadcast(SessionsOf(top, n), except, msg)
    ensures Sendable(top, n, o)
    ensures forall session <- SessionsOf(top, n) | session != except && Port(n, session) in top.links ::
              Packet(top.links[Port(n, session)], msg) in Packets(top, n, o)
    ensures forall p <- Packets(top, n, o) ::
              p.msg == msg && p.to in top.links && top.links[p.to].node == n && top.links[p.to].session != except
    ensures forall i, j | 0 <= i < j < |o.sends| :: Packets(top, n, o)[i].to != Packets(top, n, o)[j].to
  {
    var sessions := SessionsOf(top, n);
    var ids := Others(sessions, except);
    OthersMember(sessions, except);
    forall out <- o.sends ensures Port(n, out.session) in top.links {
      var i :| 0 <= i < |ids| && out == Outgoing(ids[i], msg);
      assert ids[i] in ids;
    }
    var packets := Packets(top, n, o);
    forall session <- sessions | session != except && Port(n, session) in top.links
      ensures Packet(top.links[Port(n, session)], msg) in packets
    {
      assert session in ids;
      var i :| 0 <= i < |ids| && ids[i] == session;
      assert packets[i] == Packet(top.links[Port(n, session)], msg);
    }
    forall i | 0 <= i < |packets|
      ensures packets[i].msg == msg && packets[i].to in top.links && top.links[packets[i].to] == Port(n, ids[i])
      ensures ids[i] != except
    {
      assert ids[i] in ids;
    }
  }

  // ---------------------------------------------------------------- starting a search

  /** Everything but one search and one response, whose parts of the invariant are given. */
  lemma RestKeeps(top: Topology, s: State, s': State, reqId: Id, r: Id)
    requires Inv(top, s) && Grows(s, s') && IdsOk(s') && OncePerPort(s')
    requires forall id <- s'.searches | id != reqId ::
               id in s.searches && s'.searches[id] == s.searches[id] && SameFor(s, s', id)
    requires reqId in s'.searches ==> SearchInv(top, s', reqId)
    requires forall j <- s'.journeys | j != r ::
               j in s.journeys && s'.journeys[j] == s.journeys[j] && SameFor(s, s', j)
    requires r in s'.journeys ==> JourneyOk(top, s', r)
    requires forall k | 0 <= k < |s'.sent| :: PacketOk(top, s', k)
    requires forall j <- s.journeys | j != r && s.journeys[j].stage.Back? :: s.journeys[j].stage.k !in s'.handled
    requires forall j <- s.journeys | j != r && s.journeys[j].stage.Forth? :: s.journeys[j].stage.k !in s'.handled
    ensures Inv(top, s')
  {
    hide SearchInv, JourneyOk, PacketOk, OncePerPort, IdsOk, Grows, SameFor;
    forall id <- s'.searches
      ensures SearchInv(top, s', id)
    {
      if id != reqId {
        SearchKeeps(top, s, s', id);
      }
    }
    forall j <- s'.journeys
      ensures JourneyOk(top, s', j)
    {
      if j != r {
        JourneySearch(top, s, j);
        GrowsSearches(s, s', s.journeys[j].reqId);
        JourneyStays(top, s, s', j);
      }
    }
  }

  lemma JourneyStays(top: Topology, s: State, s': State, r: Id)
    requires Grows(s, s') && r in s.journeys && JourneyOk(top, s, r)
    requires r in s'.journeys && s'.journeys[r] == s.journeys[r] && SameFor(s, s', r)
    requires SearchInv(top, s', s.journeys[r].reqId)
    requires s.journeys[r].stage.Back? ==> s.journeys[r].stage.k !in s'.handled
    requires s.journeys[r].stage.Forth? ==> s.journeys[r].stage.k !in s'.handled
    ensures JourneyOk(top, s', r)
  {
    hide SpreadOk, AnsweredOk, Pos, PointsBack;
    JourneyKeeps(top, s, s', r);
  }

  /** The search of a response is known. */
  lemma JourneySearch(top: Topology, s: State, r: Id)
    requires r in s.journeys && JourneyOk(top, s, r)
    ensures s.journeys[r].reqId in s.searches
  {
  }

  lemma GrowsSearches(s: State, s': State, id: Id)
    requires Grows(s, s') && id in s.searches
    ensures id in s'.searches
  {
  }

  lemma StartTables(top: Topology, s: State, s': State, n: nat, reqId: Id, fileId: Id, m: nat)
    requires Starts(top, s, s', n, reqId, fileId)
    ensures Table(s', m) == if m == n then Table(s, n)[reqId := Entry(fileId, 0)] else Table(s, m)
  {
    hide Broadcast, Packets;
  }

  lemma NotRecorded(s: State, id: Id)
    requires IdsOk(s) && !Used(s, id)
    ensures forall m: nat :: id !in Table(s, m)
  {
  }

  lemma StartGrows(top: Topology, s: State, s': State, n: nat, reqId: Id, fileId: Id)
    requires IdsOk(s) && Starts(top, s, s', n, reqId, fileId)
    ensures Grows(s, s') && IdsOk(s')
    ensures forall id <- s.searches :: SameFor(s, s', id)
    ensures forall r <- s.journeys :: SameFor(s, s', r)
  {
    hide Table, Packets, Broadcast;
    NotRecorded(s, reqId);
    forall m: nat
      ensures Table(s', m) == if m == n then Table(s, n)[reqId := Entry(fileId, 0)] else Table(s, m)
    {
      StartTables(top, s, s', n, reqId, fileId, m);
    }
    forall m: nat, id <- Table(s', m)
      ensures Used(s', id)
    {
      assert reqId in s'.searches;
      if id != reqId {
        assert id in Table(s, m);
        assert Used(s, id);
        assert id in s.searches ==> id in s'.searches;
      }
    }
  }

  lemma StartSearch(top: Topology, s: State, s': State, n: nat, reqId: Id, fileId: Id)
    requires TopologyOk(top) && IdsOk(s) && Starts(top, s, s', n, reqId, fileId)
    ensures SearchInv(top, s', reqId)
  {
    hide Table, Packets, Broadcast, Infos, SessionsOf, StartSessions;
    var o := Originate(Table(s, n), StartSessions(top, n), reqId, fileId);
    BroadcastPackets(top, n, 0, PathRequest(reqId, MAX_TTL, fileId), o);
    NotRecorded(s, reqId);
    forall m: nat
      ensures Table(s', m) == if m == n then Table(s, n)[reqId := Entry(fileId, 0)] else Table(s, m)
    {
      StartTables(top, s, s', n, reqId, fileId, m);
    }
    assert s'.searches[reqId] == Search(fileId, [n]);
    assert forall m: nat :: m in [n] <==> reqId in Table(s', m);
  }

  lemma StartPackets(top: Topology, s: State, s': State, n: nat, reqId: Id, fileId: Id)
    requires TopologyOk(top) && Inv(top, s) && Starts(top, s, s', n, reqId, fileId)
    requires Grows(s, s') && SearchInv(top, s', reqId)
    ensures forall k | 0 <= k < |s'.sent| :: PacketOk(top, s', k)
  {
    hide JourneyOk, OncePerPort, Broadcast, SpreadOk, AnsweredOk, PointsBack, Distinct, Grows;
    var o := Originate(Table(s, n), StartSessions(top, n), reqId, fileId);
    BroadcastPackets(top, n, 0, PathRequest(reqId, MAX_TTL, fileId), o);
    StartTables(top, s, s', n, reqId, fileId, n);
    forall k | 0 <= k < |s'.sent|
      ensures PacketOk(top, s', k)
    {
      if k < |s.sent| {
        PacketKeeps(top, s, s', k);
      } else {
        assert s'.sent[k] in Packets(top, n, o);
      }
    }
  }

  /** New request packets leave by distinct sessions of a node that has sent none for the search before. */
  lemma OncePerPortKeeps(top: Topology, s: State, s': State, n: nat, o: Outcome, except: nat, msg: PathMessage)
    requires TopologyOk(top) && OncePerPort(s) && Sendable(top, n, o) && msg.PathRequest?
    requires o.sends == Broadcast(SessionsOf(top, n), except, msg) && s'.sent == s.sent + Packets(top, n, o)
    requires forall k | 0 <= k < |s.sent| && s.sent[k].msg.PathRequest? && s.sent[k].msg.reqId == msg.reqId ::
               s.sent[k].to in top.links && top.links[s.sent[k].to].node != n
    ensures OncePerPort(s')
  {
    hide Broadcast, TopologyOk;
    BroadcastPackets(top, n, except, msg, o);
    var packets := Packets(top, n, o);
    forall j, k | 0 <= j < k < |s'.sent| && s'.sent[j].msg.PathRequest? && s'.sent[k].msg.PathRequest? &&
                  s'.sent[j].msg.reqId == s'.sent[k].msg.reqId
      ensures s'.sent[j].to != s'.sent[k].to
    {
      if k >= |s.sent| {
        assert s'.sent[k] == packets[k - |s.sent|] && packets[k - |s.sent|] in packets;
        if j >= |s.sent| {
          assert s'.sent[j] == packets[j - |s.sent|];
        }
      }
    }
  }

  lemma StartOnce(top: Topology, s: State, s': State, n: nat, reqId: Id, fileId: Id)
    requires TopologyOk(top) && Inv(top, s) && Starts(top, s, s', n, reqId, fileId)
    ensures OncePerPort(s')
  {
    hide JourneyOk, OncePerPort, Broadcast, SearchInv, Packets, IdsOk;
    forall k | 0 <= k < |s.sent| && s.sent[k].msg.PathRequest?
      ensures s.sent[k].msg.reqId != reqId
    {
      assert PacketOk(top, s, k);
    }
    var o := Originate(Table(s, n), StartSessions(top, n), reqId, fileId);
    OncePerPortKeeps(top, s, s', n, o, 0, PathRequest(reqId, MAX_TTL, fileId));
  }

  lemma StartKeeps(top: Topology, s: State, s': State, n: nat, reqId: Id, fileId: Id)
    requires TopologyOk(top) && Inv(top, s) && Starts(top, s, s', n, reqId, fileId)
    ensures Inv(top, s')
  {
    StartGrows(top, s, s', n, reqId, fileId);
    StartSearch(top, s, s', n, reqId, fileId);
    StartPackets(top, s, s', n, reqId, fileId);
    StartOnce(top, s, s', n, reqId, fileId);
    hide SearchInv, PacketOk, OncePerPort, Grows, SameFor, Packets, Table, JourneyOk;
    forall r <- s.journeys
      ensures s.journeys[r].stage.Back? ==> s.journeys[r].stage.k !in s'.handled
      ensures s.journeys[r].stage.Forth? ==> s.journeys[r].stage.k !in s'.handled
    {
      StageUnhandled(top, s, r);
    }
    RestKeeps(top, s, s', reqId, reqId);
  }

  /** The packet that carries a response on has not been handled. */
  lemma StageUnhandled(top: Topology, s: State, r: Id)
    requires r in s.journeys && JourneyOk(top, s, r)
    ensures s.journeys[r].stage.Back? ==> s.journeys[r].stage.k !in s.handled
    ensures s.journeys[r].stage.Forth? ==> s.journeys[r].stage.k !in s.handled
  {
  }

  // ---------------------------------------------------------------- handling a packet

  lemma DeliverTables(top: Topology, s: State, s': State, k: nat, newId: Id, m: nat)
    requires Delivers(top, s, s', k, newId)
    ensures var n := s.sent[k].to.node;
            Table(s', m) == if m == n then Handle(top, s, s.sent[k], newId).requests else Table(s, m)
  {
    hide OnMessage, Packets, Searches, Journeys;
  }

  /** Packets not being handled, when no response moves. */
  lemma OldPacketsKeep(top: Topology, s: State, s': State, k: nat)
    requires Inv(top, s) && Grows(s, s') && k < |s.sent| && s'.handled == s.handled + {k}
    requires forall r <- s.journeys :: s'.journeys[r].stage == s.journeys[r].stage
    ensures forall i | 0 <= i < |s.sent| && i != k :: PacketOk(top, s', i)
  {
    hide PacketOk, JourneyOk, SearchInv, OncePerPort, IdsOk;
    forall i | 0 <= i < |s.sent| && i != k
      ensures PacketOk(top, s', i)
    {
      PacketJourney(top, s, i);
      PacketKeeps(top, s, s', i);
    }
  }

  lemma PacketJourney(top: Topology, s: State, i: nat)
    requires i < |s.sent| && PacketOk(top, s, i)
    ensures s.sent[i].msg.PathResponse? || s.sent[i].msg.PathAddress? ==> s.sent[i].msg.respId in s.journeys
  {
  }

  /** No response waits for a request packet. */
  lemma StagesKeep(top: Topology, s: State, k: nat)
    requires Inv(top, s) && k < |s.sent| && s.sent[k].msg.PathRequest?
    ensures forall r <- s.journeys | s.journeys[r].stage.Back? :: s.journeys[r].stage.k !in s.handled + {k}
    ensures forall r <- s.journeys | s.journeys[r].stage.Forth? :: s.journeys[r].stage.k !in s.handled + {k}
  {
    hide PacketOk, SearchInv, OncePerPort, IdsOk, SearchOk, TrailStep;
    forall r <- s.journeys
      ensures s.journeys[r].stage.Back? ==> s.journeys[r].stage.k !in s.handled + {k}
      ensures s.journeys[r].stage.Forth? ==> s.journeys[r].stage.k !in s.handled + {k}
    {
      assert JourneyOk(top, s, r);
    }
  }

  /** Ids stay accounted for. */
  lemma IdsFollow(s: State, s': State)
    requires IdsOk(s) && s.searches.Keys <= s'.searches.Keys && s.journeys.Keys <= s'.journeys.Keys
    requires s'.searches.Keys !! s'.journeys.Keys
    requires forall m: nat, id <- Table(s', m) :: id in Table(s, m) || Used(s', id)
    requires forall i <- s'.handled :: i < |s'.sent|
    ensures IdsOk(s')
  {
    hide Table;
    forall m: nat, id <- Table(s', m)
      ensures Used(s', id)
    {
      if id in Table(s, m) {
        assert Used(s, id);
      }
    }
  }

  lemma IdsApart(s: State)
    requires IdsOk(s)
    ensures s.searches.Keys !! s.journeys.Keys
  {
  }

  /** A request that comes to a node that knows it changes nothing. */
  lemma AgainKeeps(top: Topology, s: State, s': State, k: nat, newId: Id)
    requires TopologyOk(top) && Inv(top, s) && Delivers(top, s, s', k, newId)
    requires s.sent[k].msg.PathRequest? && s.sent[k].msg.reqId in Table(s, s.sent[k].to.node)
    ensures Inv(top, s')
  {
    hide PacketOk, JourneyOk, SearchInv, IdsOk, Grows, SameFor, TopologyOk, Table, Handle, Delivers;
    AgainGrows(top, s, s', k, newId);
    OldPacketsKeep(top, s, s', k);
    StagesKeep(top, s, k);
    AgainPacket(top, s, s', k, newId);
    var id := s.sent[k].msg.reqId;
    if id in s.searches {
      SearchKeeps(top, s, s', id);
    }
    RestKeeps(top, s, s', id, newId);
  }

  lemma AgainPacket(top: Topology, s: State, s': State, k: nat, newId: Id)
    requires PacketOkAt(top, s, k) && Delivers(top, s, s', k, newId) && Grows(s, s') && s'.sent == s.sent
    requires s.sent[k].msg.PathRequest? && s.sent[k].msg.reqId in Table(s, s.sent[k].to.node)
    ensures PacketOk(top, s', k)
  {
    RequestKeeps(top, s, s', s.sent[k].msg.reqId, s.sent[k]);
  }

  ghost predicate PacketOkAt(top: Topology, s: State, k: nat) {
    k < |s.sent| && PacketOk(top, s, k)
  }

  lemma AgainGrows(top: Topology, s: State, s': State, k: nat, newId: Id)
    requires IdsOk(s) && Delivers(top, s, s', k, newId)
    requires s.sent[k].msg.PathRequest? && s.sent[k].msg.reqId in Table(s, s.sent[k].to.node)
    ensures Grows(s, s') && IdsOk(s') && s'.sent == s.sent
    ensures s'.searches == s.searches && s'.journeys == s.journeys && s'.handled == s.handled + {k}
    ensures k < |s.sent| && newId !in s'.journeys && forall id :: SameFor(s, s', id)
  {
    hide Table;
    forall m: nat
      ensures Table(s', m) == Table(s, m)
    {
      DeliverTables(top, s, s', k, newId, m);
    }
    assert Packets(top, s.sent[k].to.node, Handle(top, s, s.sent[k], newId)) == [];
    IdsApart(s);
    IdsFollow(s, s');
  }

  // ---------------------------------------------------------------- recording a request

  /** The node that records a request joins its search. */
  ghost predicate Joins(top: Topology, s: State, s': State, p: Packet, id: Id) {
    && p.to in top.links && RequestOk(top, s, id, p) && id in s'.searches
    && s'.searches[id] == Search(s.searches[id].fileId, s.searches[id].order + [p.to.node])
    && (forall m: nat :: id in Table(s', m) <==> id in Table(s, m) || m == p.to.node)
    && id !in Table(s, p.to.node)
    && Table(s', p.to.node)[id] == Entry("", p.to.session)
  }

  lemma JoinPointer(top: Topology, s: State, s': State, p: Packet, id: Id)
    requires id in s.searches && Distinct(s.searches[id].order + [p.to.node]) && Joins(top, s, s', p, id)
    ensures PointsBack(top, s', id, p.to.node)
  {
    var order := s.searches[id].order;
    PosKeeps(order, order + [p.to.node], top.links[p.to].node);
    assert (order + [p.to.node])[|order|] == p.to.node;
  }

  lemma JoinOk(top: Topology, s: State, s': State, p: Packet, id: Id)
    requires Grows(s, s') && id in s.searches && SearchOk(top, s, id) && Joins(top, s, s', p, id)
    ensures SearchOk(top, s', id)
  {
    hide PointsBack, RequestOk;
    var order, n := s.searches[id].order, p.to.node;
    var order' := order + [n];
    assert n !in order && Distinct(order');
    forall m: nat
      ensures m in order' <==> id in Table(s', m)
    {
    }
    forall m <- order' | m != order'[0]
      ensures PointsBack(top, s', id, m)
    {
      if m == n {
        JoinPointer(top, s, s', p, id);
      } else {
        PointsBackKeeps(top, s, s', id, m);
      }
    }
  }

  lemma JoinSpread(top: Topology, s: State, s': State, p: Packet, id: Id)
    requires Grows(s, s') && id in s.searches && SearchOk(top, s, id) && SpreadOk(top, s, id)
    requires Joins(top, s, s', p, id)
    requires var n := p.to.node;
             (n, s.searches[id].fileId) !in top.holds ==>
               forall session <- SessionsOf(top, n) | session != p.to.session && Port(n, session) in top.links ::
                 Packet(top.links[Port(n, session)], PathRequest(id, MAX_TTL, s.searches[id].fileId)) in s'.sent
    ensures SpreadOk(top, s', id)
  {
    hide PointsBack, RequestOk;
    var q, q' := s.searches[id], s'.searches[id];
    assert Origin(q') == Origin(q);
    forall n: nat <- q'.order, session: nat <- SessionsOf(top, n) |
      Forwards(top, q', n) && id in Table(s', n) && session != Table(s', n)[id].from && Port(n, session) in top.links
      ensures Packet(top.links[Port(n, session)], PathRequest(id, MAX_TTL, q'.fileId)) in s'.sent
    {
      if n != p.to.node {
        assert n in q.order;
        assert Packet(top.links[Port(n, session)], PathRequest(id, MAX_TTL, q.fileId)) in s.sent;
      }
    }
  }

  lemma JoinAnswered(top: Topology, s: State, s': State, p: Packet, id: Id)
    requires Grows(s, s') && id in s.searches && SearchOk(top, s, id) && AnsweredOk(top, s, id)
    requires Joins(top, s, s', p, id)
    requires (p.to.node, s.searches[id].fileId) in top.holds ==> HasAnswered(s', id, p.to.node)
    ensures AnsweredOk(top, s', id)
  {
    hide PointsBack, RequestOk, HasAnswered;
    var q, q' := s.searches[id], s'.searches[id];
    assert Origin(q') == Origin(q);
    forall n <- q'.order | !Forwards(top, q', n)
      ensures HasAnswered(s', id, n)
    {
      if n != p.to.node {
        AnswerKeeps(s, s', id, n);
      }
    }
  }

  /** A request packet in flight, seen from its node. */
  lemma RequestFacts(top: Topology, s: State, k: nat)
    requires Inv(top, s) && k < |s.sent| && s.sent[k].msg.PathRequest?
    ensures var p := s.sent[k];
            && p.to in top.links && RequestOk(top, s, p.msg.reqId, p) && SearchInv(top, s, p.msg.reqId)
            && p.msg == PathRequest(p.msg.reqId, MAX_TTL, s.searches[p.msg.reqId].fileId)
  {
    hide SearchInv, JourneyOk;
    assert PacketOk(top, s, k);
  }

  /** No request of a search has left a node that has not recorded it. */
  lemma NoneLeft(top: Topology, s: State, id: Id, n: nat)
    requires Inv(top, s) && id !in Table(s, n)
    ensures forall i | 0 <= i < |s.sent| && s.sent[i].msg.PathRequest? && s.sent[i].msg.reqId == id ::
              s.sent[i].to in top.links && top.links[s.sent[i].to].node != n
  {
    hide SearchInv, JourneyOk;
    forall i | 0 <= i < |s.sent| && s.sent[i].msg.PathRequest? && s.sent[i].msg.reqId == id
      ensures s.sent[i].to in top.links && top.links[s.sent[i].to].node != n
    {
      assert PacketOk(top, s, i);
    }
  }

  /** A node without the file records a request and passes it on. */
  ghost predicate PassesOn(top: Topology, s: State, s': State, k: nat, newId: Id) {
    && Delivers(top, s, s', k, newId) && s.sent[k].msg.PathRequest?
    && s.sent[k].msg.reqId !in Table(s, s.sent[k].to.node)
    && (s.sent[k].to.node, s.sent[k].msg.fileId) !in top.holds
  }

  lemma PassOnForm(top: Topology, s: State, s': State, k: nat, newId: Id)
    requires IdsOk(s) && PassesOn(top, s, s', k, newId)
    requires s.sent[k].to in top.links && RequestOk(top, s, s.sent[k].msg.reqId, s.sent[k])
    ensures Grows(s, s') && IdsOk(s') && Joins(top, s, s', s.sent[k], s.sent[k].msg.reqId)
    ensures s'.handled == s.handled + {k} && s'.journeys == s.journeys && newId !in s.journeys
    ensures forall id <- s'.searches | id != s.sent[k].msg.reqId ::
              id in s.searches && s'.searches[id] == s.searches[id] && SameFor(s, s', id)
    ensures forall r <- s.journeys :: SameFor(s, s', r)
    ensures var n := s.sent[k].to.node;
            var o := Handle(top, s, s.sent[k], newId);
            && Sendable(top, n, o) && s'.sent == s.sent + Packets(top, n, o)
            && o.sends == Broadcast(SessionsOf(top, n), s.sent[k].to.session, s.sent[k].msg)
  {
    hide Table, Packets, Broadcast, RequestOk;
    var n, id := s.sent[k].to.node, s.sent[k].msg.reqId;
    assert id in s.searches by { RequestSearch(top, s, id, s.sent[k]); }
    forall m: nat
      ensures Table(s', m) == if m == n then Table(s, n)[id := Entry("", s.sent[k].to.session)] else Table(s, m)
    {
      DeliverTables(top, s, s', k, newId, m);
    }
    IdsApart(s);
    IdsFollow(s, s');
  }

  lemma RequestSearch(top: Topology, s: State, id: Id, p: Packet)
    requires p.to in top.links && RequestOk(top, s, id, p)
    ensures id in s.searches
  {
  }

  lemma PassOnSearch(top: Topology, s: State, s': State, k: nat, newId: Id)
    requires TopologyOk(top) && Inv(top, s) && PassesOn(top, s, s', k, newId)
    ensures SearchInv(top, s', s.sent[k].msg.reqId)
  {
    var p, id, n := s.sent[k], s.sent[k].msg.reqId, s.sent[k].to.node;
    hide SearchInv, PacketOk, JourneyOk, Delivers, Handle, RequestOk, Joins, IdsOk, TopologyOk, Broadcast, Packets, Table;
    RequestFacts(top, s, k);
    PassOnForm(top, s, s', k, newId);
    var o := Handle(top, s, p, newId);
    BroadcastPackets(top, n, p.to.session, p.msg, o);
    SearchParts(top, s, id);
    hide Grows, SearchOk, SpreadOk, AnsweredOk;
    JoinOk(top, s, s', p, id);
    JoinSpread(top, s, s', p, id);
    JoinAnswered(top, s, s', p, id);
    SearchWhole(top, s', id);
  }

  lemma SearchParts(top: Topology, s: State, id: Id)
    requires SearchInv(top, s, id)
    ensures id in s.searches && SearchOk(top, s, id) && SpreadOk(top, s, id) && AnsweredOk(top, s, id)
  {
  }

  lemma SearchWhole(top: Topology, s: State, id: Id)
    requires id in s.searches && SearchOk(top, s, id) && SpreadOk(top, s, id) && AnsweredOk(top, s, id)
    ensures SearchInv(top, s, id)
  {
  }

  lemma PassOnPackets(top: Topology, s: State, s': State, k: nat, newId: Id)
    requires TopologyOk(top) && Inv(top, s) && PassesOn(top, s, s', k, newId)
    ensures forall i | 0 <= i < |s'.sent| :: PacketOk(top, s', i)
    ensures OncePerPort(s')
  {
    var p, id, n := s.sent[k], s.sent[k].msg.reqId, s.sent[k].to.node;
    hide SearchInv, JourneyOk, Delivers, Handle, IdsOk, TopologyOk, Broadcast, Packets, OncePerPort;
    RequestFacts(top, s, k);
    PassOnForm(top, s, s', k, newId);
    var o := Handle(top, s, p, newId);
    BroadcastPackets(top, n, p.to.session, p.msg, o);
    NoneLeft(top, s, id, n);
    OncePerPortKeeps(top, s, s', n, o, p.to.session, p.msg);
    OldPacketsKeep(top, s, s', k);
    RequestKeeps(top, s, s', id, p);
    forall i | 0 <= i < |s'.sent|
      ensures PacketOk(top, s', i)
    {
      if i >= |s.sent| {
        assert s'.sent[i] in Packets(top, n, o);
        PassOnRequest(top, s, s', p, id, s'.sent[i]);
        NotHandledYet(s, s', i, k);
      }
    }
  }

  lemma NotHandledYet(s: State, s': State, i: nat, k: nat)
    requires IdsOk(s) && i >= |s.sent| && k < |s.sent| && s'.handled == s.handled + {k}
    ensures i !in s'.handled
  {
  }

  /** A request passed on comes from a node that has just recorded it. */
  lemma PassOnRequest(top: Topology, s: State, s': State, p: Packet, id: Id, out: Packet)
    requires Joins(top, s, s', p, id) && (p.to.node, s.searches[id].fileId) !in top.holds
    requires out.msg == PathRequest(id, MAX_TTL, s.searches[id].fileId) && out.to in top.links
    requires top.links[out.to].node == p.to.node && top.links[out.to].session != p.to.session
    ensures RequestOk(top, s', id, out)
  {
  }

  lemma PassesRequest(top: Topology, s: State, s': State, k: nat, newId: Id)
    requires PassesOn(top, s, s', k, newId)
    ensures Pending(s, k) && s.sent[k].msg.PathRequest?
  {
    hide Handle, Packets, Searches, Journeys;
  }

  lemma PassOnKeeps(top: Topology, s: State, s': State, k: nat, newId: Id)
    requires TopologyOk(top) && Inv(top, s) && PassesOn(top, s, s', k, newId)
    ensures Inv(top, s')
  {
    var id := s.sent[k].msg.reqId;
    PassesRequest(top, s, s', k, newId);
    hide *;
    InvParts(top, s);
    PassOnSearch(top, s, s', k, newId);
    PassOnPackets(top, s, s', k, newId);
    RequestFacts(top, s, k);
    PassOnForm(top, s, s', k, newId);
    StagesKeep(top, s, k);
    RestKeeps(top, s, s', id, newId);
  }

  // ---------------------------------------------------------------- answering a request

  /** A node that holds the file records a request and answers it. */
  ghost predicate Answers(top: Topology, s: State, s': State, k: nat, newId: Id) {
    && Delivers(top, s, s', k, newId) && s.sent[k].msg.PathRequest?
    && s.sent[k].msg.reqId !in Table(s, s.sent[k].to.node)
    && (s.sent[k].to.node, s.sent[k].msg.fileId) in top.holds
  }

  lemma AnswerForm(top: Topology, s: State, s': State, k: nat, newId: Id)
    requires IdsOk(s) && Answers(top, s, s', k, newId)
    requires s.sent[k].to in top.links && RequestOk(top, s, s.sent[k].msg.reqId, s.sent[k])
    ensures Grows(s, s') && IdsOk(s') && Joins(top, s, s', s.sent[k], s.sent[k].msg.reqId)
    ensures s'.handled == s.handled + {k} && !Used(s, newId)
    ensures forall id <- s'.searches | id != s.sent[k].msg.reqId ::
              id in s.searches && s'.searches[id] == s.searches[id] && SameFor(s, s', id)
    ensures forall r <- s.journeys :: SameFor(s, s', r)
    ensures var p, n, id := s.sent[k], s.sent[k].to.node, s.sent[k].msg.reqId;
            && s'.sent == s.sent + [Packet(top.links[p.to], PathResponse(newId, id, n))]
            && s'.journeys == s.journeys[newId := Journey(id, [n], Back(|s.sent|))]
            && (forall m: nat :: newId in Table(s', m) <==> m == n)
            && Table(s', n)[newId] == Entry(p.msg.fileId, 0)
  {
    hide Table, RequestOk;
    var p, n, id := s.sent[k], s.sent[k].to.node, s.sent[k].msg.reqId;
    assert id in s.searches by { RequestSearch(top, s, id, p); }
    NotRecorded(s, newId);
    forall m: nat
      ensures Table(s', m) ==
              if m == n then Table(s, n)[id := Entry("", p.to.session)][newId := Entry(p.msg.fileId, 0)]
              else Table(s, m)
    {
      DeliverTables(top, s, s', k, newId, m);
    }
    assert Handle(top, s, p, newId).sends == [Outgoing(p.to.session, PathResponse(newId, id, n))];
    assert Port(n, p.to.session) == p.to;
    assert Packets(top, n, Handle(top, s, p, newId)) == [Packet(top.links[p.to], PathResponse(newId, id, n))];
    IdsApart(s);
    IdsFollow(s, s');
  }

  lemma AnswerSearch(top: Topology, s: State, s': State, k: nat, newId: Id)
    requires TopologyOk(top) && Inv(top, s) && Answers(top, s, s', k, newId)
    ensures SearchInv(top, s', s.sent[k].msg.reqId)
  {
    var p, id, n := s.sent[k], s.sent[k].msg.reqId, s.sent[k].to.node;
    hide SearchInv, PacketOk, JourneyOk, Delivers, RequestOk, Joins, IdsOk, TopologyOk, Table;
    RequestFacts(top, s, k);
    AnswerForm(top, s, s', k, newId);
    SearchParts(top, s, id);
    assert HasAnswered(s', id, n) by {
      assert newId in s'.journeys && s'.journeys[newId].trail[0] == n;
    }
    hide Grows, SearchOk, SpreadOk, AnsweredOk, HasAnswered;
    JoinOk(top, s, s', p, id);
    JoinSpread(top, s, s', p, id);
    JoinAnswered(top, s, s', p, id);
    SearchWhole(top, s', id);
  }

  lemma AnswerPackets(top: Topology, s: State, s': State, k: nat, newId: Id)
    requires TopologyOk(top) && Inv(top, s) && Answers(top, s, s', k, newId)
    ensures forall i | 0 <= i < |s'.sent| :: PacketOk(top, s', i)
    ensures OncePerPort(s')
  {
    var p, id, n := s.sent[k], s.sent[k].msg.reqId, s.sent[k].to.node;
    RequestFacts(top, s, k);
    AnswerForm(top, s, s', k, newId);
    hide SearchInv, JourneyOk, Delivers, IdsOk, Grows, RequestOk, SameFor, PacketOk, Table, Joins, Answers, OncePerPort;
    OnceOther(s, s', Packet(top.links[p.to], PathResponse(newId, id, n)));
    JourneysAdd(s, s', newId, Journey(id, [n], Back(|s.sent|)));
    OldPacketsKeep(top, s, s', k);
    AnsweredRest(top, s, s', k, newId);
  }

  lemma AnsweredRest(top: Topology, s: State, s': State, k: nat, newId: Id)
    requires TopologyOk(top) && Grows(s, s') && Pending(s, k) && s.sent[k].msg.PathRequest? && s.sent[k].to in top.links
    requires RequestOk(top, s, s.sent[k].msg.reqId, s.sent[k]) && Joins(top, s, s', s.sent[k], s.sent[k].msg.reqId)
    requires s'.sent == s.sent + [Packet(top.links[s.sent[k].to],
                                         PathResponse(newId, s.sent[k].msg.reqId, s.sent[k].to.node))]
    requires newId in s'.journeys && s'.journeys[newId].stage == Back(|s.sent|)
    requires forall i | 0 <= i < |s.sent| && i != k :: PacketOk(top, s', i)
    ensures forall i | 0 <= i < |s'.sent| :: PacketOk(top, s', i)
  {
    RequestKeeps(top, s, s', s.sent[k].msg.reqId, s.sent[k]);
    AnsweredPackets(top, s, s', k, newId);
    hide PacketOk, Grows, RequestOk, Joins, TopologyOk;
  }

  lemma JourneysAdd(s: State, s': State, r: Id, j: Journey)
    requires r !in s.journeys && s'.journeys == s.journeys[r := j]
    ensures forall i <- s.journeys :: s'.journeys[i].stage == s.journeys[i].stage
  {
  }

  lemma OnceOther(s: State, s': State, p: Packet)
    requires OncePerPort(s) && s'.sent == s.sent + [p] && !p.msg.PathRequest?
    ensures OncePerPort(s')
  {
  }

  /** The packet handled, and the response it is answered by. */
  lemma AnsweredPackets(top: Topology, s: State, s': State, k: nat, newId: Id)
    requires TopologyOk(top) && Pending(s, k) && s.sent[k].msg.PathRequest? && s.sent[k].to in top.links
    requires RequestOk(top, s', s.sent[k].msg.reqId, s.sent[k])
    requires s.sent[k].msg.reqId in Table(s', s.sent[k].to.node)
    requires s'.sent == s.sent + [Packet(top.links[s.sent[k].to],
                                         PathResponse(newId, s.sent[k].msg.reqId, s.sent[k].to.node))]
    requires newId in s'.journeys && s'.journeys[newId].stage == Back(|s.sent|)
    ensures PacketOk(top, s', k) && PacketOk(top, s', |s.sent|)
  {
    hide RequestOk;
  }

  lemma AnswerJourney(top: Topology, s: State, s': State, k: nat, newId: Id)
    requires TopologyOk(top) && Inv(top, s) && Answers(top, s, s', k, newId)
    requires SearchInv(top, s', s.sent[k].msg.reqId)
    ensures JourneyOk(top, s', newId)
  {
    var p, id, n := s.sent[k], s.sent[k].msg.reqId, s.sent[k].to.node;
    RequestFacts(top, s, k);
    AnswerForm(top, s, s', k, newId);
    NotHandledYet(s, s', |s.sent|, k);
    SearchParts(top, s', id);
    SearchParts(top, s, id);
    hide PacketOk, Delivers, PointsBack, SpreadOk, AnsweredOk, Inv, TopologyOk, RequestOk, Grows, SameFor, IdsOk;
    assert n !in s.searches[id].order;
    FreshJourney(top, s', newId, id, n, |s.sent|, p);
  }

  /** A response that has just been made. */
  lemma FreshJourney(top: Topology, s: State, r: Id, id: Id, n: nat, k: nat, p: Packet)
    requires r in s.journeys && s.journeys[r] == Journey(id, [n], Back(k))
    requires id in s.searches && SearchOk(top, s, id) && id in Table(s, n) && Table(s, n)[id].from == p.to.session
    requires n in s.searches[id].order && !Forwards(top, s.searches[id], n)
    requires p.to.node == n && p.to in top.links
    requires forall m: nat :: r in Table(s, m) <==> m == n
    requires Table(s, n)[r] == Entry(s.searches[id].fileId, 0)
    requires Pending(s, k) && s.sent[k] == Packet(top.links[p.to], PathResponse(r, id, n))
    ensures JourneyOk(top, s, r)
  {
    hide SearchOk, Table;
    assert BackPort(s, n, id) == p.to;
    assert StageOk(top, s, r);
  }

  lemma AnswersRequest(top: Topology, s: State, s': State, k: nat, newId: Id)
    requires Answers(top, s, s', k, newId)
    ensures Pending(s, k) && s.sent[k].msg.PathRequest?
  {
    hide Handle, Packets, Searches, Journeys;
  }

  lemma AnswerRest(top: Topology, s: State, s': State, k: nat, id: Id, newId: Id)
    requires Inv(top, s) && Grows(s, s') && IdsOk(s') && OncePerPort(s') && !Used(s, newId)
    requires forall i <- s'.searches | i != id ::
               i in s.searches && s'.searches[i] == s.searches[i] && SameFor(s, s', i)
    requires SearchInv(top, s', id) && s'.handled == s.handled + {k}
    requires newId in s'.journeys && JourneyOk(top, s', newId)
    requires s'.journeys == s.journeys[newId := s'.journeys[newId]] && forall r <- s.journeys :: SameFor(s, s', r)
    requires forall i | 0 <= i < |s'.sent| :: PacketOk(top, s', i)
    requires forall r <- s.journeys | s.journeys[r].stage.Back? :: s.journeys[r].stage.k !in s.handled + {k}
    requires forall r <- s.journeys | s.journeys[r].stage.Forth? :: s.journeys[r].stage.k !in s.handled + {k}
    ensures Inv(top, s')
  {
    hide *;
    RestKeeps(top, s, s', id, newId);
  }

  lemma AnswerKeepsAll(top: Topology, s: State, s': State, k: nat, newId: Id)
    requires TopologyOk(top) && Inv(top, s) && Answers(top, s, s', k, newId)
    ensures Inv(top, s')
  {
    var id := s.sent[k].msg.reqId;
    AnswersRequest(top, s, s', k, newId);
    hide *;
    InvParts(top, s);
    AnswerSearch(top, s, s', k, newId);
    AnswerPackets(top, s, s', k, newId);
    AnswerJourney(top, s, s', k, newId);
    RequestFacts(top, s, k);
    AnswerForm(top, s, s', k, newId);
    StagesKeep(top, s, k);
    AnswerRest(top, s, s', k, id, newId);
  }

  // ---------------------------------------------------------------- a response on its way back

  /** A node with a usable pointer is not the originator, and its pointer leads to an earlier node. */
  lemma PointerNotZero(top: Topology, s: State, id: Id, n: nat)
    requires TopologyOk(top) && id in s.searches && SearchOk(top, s, id)
    requires id in Table(s, n) && BackPort(s, n, id) in top.links
    ensures n != Origin(s.searches[id]) && PointsBack(top, s, id, n)
  {
    hide PointsBack;
    assert n in s.searches[id].order;
  }

  /** A node that is not the originator has a usable pointer. */
  lemma PointerUsable(top: Topology, s: State, id: Id, n: nat)
    requires TopologyOk(top) && id in s.searches && SearchOk(top, s, id) && id in Table(s, n)
    ensures Table(s, n)[id].from == 0 <==> n == Origin(s.searches[id])
    ensures n != Origin(s.searches[id]) ==> PointsBack(top, s, id, n)
  {
    assert n in s.searches[id].order;
    if n != Origin(s.searches[id]) {
      assert PointsBack(top, s, id, n);
    }
  }

  lemma TrailMember(top: Topology, s: State, r: Id, i: nat)
    requires r in s.journeys && JourneyOk(top, s, r) && i < |s.journeys[r].trail|
    ensures var id, n := s.journeys[r].reqId, s.journeys[r].trail[i];
            && id in s.searches && SearchOk(top, s, id) && n in s.searches[id].order
            && id in Table(s, n) && r in Table(s, n)
  {
    hide PointsBack;
    assert s.journeys[r].trail[i] in s.journeys[r].trail;
  }

  lemma TrailStepAt(top: Topology, s: State, r: Id, i: nat)
    requires r in s.journeys && JourneyOk(top, s, r) && 0 < i < |s.journeys[r].trail|
    ensures var id, t := s.journeys[r].reqId, s.journeys[r].trail;
            && id in Table(s, t[i - 1]) && r in Table(s, t[i])
            && BackPort(s, t[i - 1], id) in top.links
            && top.links[BackPort(s, t[i - 1], id)] == BackPort(s, t[i], r)
  {
    hide PointsBack, StageOk;
    TrailMember(top, s, r, i - 1);
    TrailMember(top, s, r, i);
    assert TrailStep(top, s, r, i);
  }

  lemma TrailStepDescends(top: Topology, s: State, r: Id, i: nat)
    requires TopologyOk(top) && r in s.journeys && JourneyOk(top, s, r) && 0 < i < |s.journeys[r].trail|
    ensures var order, t := s.searches[s.journeys[r].reqId].order, s.journeys[r].trail;
            t[i] in order && t[i - 1] in order && Pos(order, t[i]) < Pos(order, t[i - 1]) && t[i - 1] != order[0]
  {
    var id, t := s.journeys[r].reqId, s.journeys[r].trail;
    TrailMember(top, s, r, i - 1);
    TrailStepAt(top, s, r, i);
    hide JourneyOk;
    PointerNotZero(top, s, id, t[i - 1]);
  }

  /** Nodes of a sequence come ever earlier in an order. */
  predicate Descends(order: seq<nat>, t: seq<nat>) {
    && (forall n <- t :: n in order)
    && (forall i | 0 < i < |t| :: Pos(order, t[i]) < Pos(order, t[i - 1]))
  }

  lemma {:induction false} DescendsFar(order: seq<nat>, t: seq<nat>, i: nat, j: nat)
    requires Descends(order, t) && i < j < |t|
    ensures Pos(order, t[j]) < Pos(order, t[i])
    decreases j - i
  {
    hide Pos;
    if i + 1 < j {
      DescendsFar(order, t, i, j - 1);
    }
  }

  /** Along a trail, nodes come ever earlier in the order of recording. */
  lemma TrailDescends(top: Topology, s: State, r: Id)
    requires TopologyOk(top) && r in s.journeys && JourneyOk(top, s, r)
    ensures s.journeys[r].reqId in s.searches
    ensures Descends(s.searches[s.journeys[r].reqId].order, s.journeys[r].trail)
  {
    hide JourneyOk, SearchOk, TopologyOk, Table, Pos;
    var t := s.journeys[r].trail;
    JourneySearch(top, s, r);
    forall i | 0 <= i < |t|
      ensures t[i] in s.searches[s.journeys[r].reqId].order
    {
      TrailMember(top, s, r, i);
    }
    forall i | 0 < i < |t|
      ensures Pos(s.searches[s.journeys[r].reqId].order, t[i]) < Pos(s.searches[s.journeys[r].reqId].order, t[i - 1])
    {
      TrailStepDescends(top, s, r, i);
    }
  }

  /** What is known of a response on its way back when it arrives. */
  ghost predicate Arriving(top: Topology, s: State, k: nat, r: Id) {
    && Pending(s, k) && r in s.journeys && s.journeys[r].stage == Back(k) && s.journeys[r].trail != []
    && s.journeys[r].reqId in s.searches && s.searches[s.journeys[r].reqId].order != []
    && var j, n := s.journeys[r], s.sent[k].to.node;
    && var last := j.trail[|j.trail| - 1];
    && j.reqId in Table(s, last) && BackPort(s, last, j.reqId) in top.links
    && s.sent[k] == Packet(top.links[BackPort(s, last, j.reqId)], PathResponse(r, j.reqId, j.trail[0]))
    && j.reqId in Table(s, n) && n in s.searches[j.reqId].order && r !in Table(s, n)
    && (Table(s, n)[j.reqId].from == 0 <==> n == Origin(s.searches[j.reqId]))
    && (n == Origin(s.searches[j.reqId]) ==> Table(s, n)[j.reqId] == Entry(s.searches[j.reqId].fileId, 0))
    && (n != Origin(s.searches[j.reqId]) ==> BackPort(s, n, j.reqId) in top.links)
  }

  lemma BackStage(top: Topology, s: State, r: Id, k: nat)
    requires r in s.journeys && JourneyOk(top, s, r) && s.journeys[r].stage == Back(k)
    ensures var j := s.journeys[r];
            && j.trail != [] && j.reqId in s.searches && SearchOk(top, s, j.reqId)
            && var last := j.trail[|j.trail| - 1];
            && last in s.searches[j.reqId].order && j.reqId in Table(s, last)
            && BackPort(s, last, j.reqId) in top.links
            && k < |s.sent|
            && s.sent[k] == Packet(top.links[BackPort(s, last, j.reqId)], PathResponse(r, j.reqId, j.trail[0]))
            && (forall n: nat :: n in j.trail <==> r in Table(s, n))
  {
    hide PointsBack;
    TrailMember(top, s, r, |s.journeys[r].trail| - 1);
  }

  lemma SearchEntries(top: Topology, s: State, id: Id)
    requires id in s.searches && SearchOk(top, s, id)
    ensures s.searches[id].order != [] && Origin(s.searches[id]) in s.searches[id].order
    ensures forall n <- s.searches[id].order :: id in Table(s, n)
    ensures Table(s, Origin(s.searches[id]))[id] == Entry(s.searches[id].fileId, 0)
  {
  }

  lemma ArrivingFacts(top: Topology, s: State, k: nat)
    requires TopologyOk(top) && Inv(top, s) && Pending(s, k) && s.sent[k].msg.PathResponse?
    ensures Arriving(top, s, k, s.sent[k].msg.respId)
  {
    var r, n := s.sent[k].msg.respId, s.sent[k].to.node;
    assert PacketOk(top, s, k);
    hide SearchInv, PacketOk, OncePerPort, IdsOk, JourneyOk, SearchOk, Table, TopologyOk, Pos;
    BackStage(top, s, r, k);
    var id, t := s.journeys[r].reqId, s.journeys[r].trail;
    TrailDescends(top, s, r);
    PointerNotZero(top, s, id, t[|t| - 1]);
    NotOnTrail(s.searches[id].order, t, n);
    SearchEntries(top, s, id);
    PointerUsable(top, s, id, n);
  }

  lemma NotOnTrail(order: seq<nat>, t: seq<nat>, n: nat)
    requires t != [] && Descends(order, t) && n in order && Pos(order, n) < Pos(order, t[|t| - 1])
    ensures n !in t
  {
    hide Pos;
    if n in t {
      var i :| 0 <= i < |t| && t[i] == n;
      if i < |t| - 1 {
        DescendsFar(order, t, i, |t| - 1);
      }
    }
  }

  /** The stage of a response after it has been handled at a node. */
  function NextStage(s: State, r: Id, n: nat): Stage
    requires r in s.journeys && s.journeys[r].reqId in Table(s, n)
  {
    if Table(s, n)[s.journeys[r].reqId].from == 0 then Forth(|s.sent|, |s.journeys[r].trail|) else Back(|s.sent|)
  }

  /** The response has moved one node back. */
  ghost predicate BackMoved(top: Topology, s: State, s': State, k: nat, r: Id) {
    && Arriving(top, s, k, r) && s.sent[k].to in top.links
    && Grows(s, s') && s'.handled == s.handled + {k} && s'.searches == s.searches
    && (forall i | i != r :: SameFor(s, s', i))
    && var p, n, j := s.sent[k], s.sent[k].to.node, s.journeys[r];
    && s'.journeys == s.journeys[r := Journey(j.reqId, j.trail + [n], NextStage(s, r, n))]
    && (forall m: nat :: r in Table(s', m) <==> r in Table(s, m) || m == n)
    && Table(s', n)[r] == Entry("", p.to.session)
    && (n == Origin(s.searches[j.reqId]) ==>
          && s'.sent == s.sent + [Packet(top.links[p.to], PathAddress(r, n))]
          && (n, Fetch(j.trail[0], s.searches[j.reqId].fileId)) in s'.events)
    && (n != Origin(s.searches[j.reqId]) ==>
          s'.sent == s.sent + [Packet(top.links[BackPort(s, n, j.reqId)], p.msg)])
  }

  lemma BackRecords(top: Topology, s: State, k: nat, newId: Id, r: Id)
    requires TopologyOk(top) && IdsOk(s) && Arriving(top, s, k, r)
    ensures r != s.journeys[r].reqId && s.sent[k].to in top.links
    ensures Handle(top, s, s.sent[k], newId).requests ==
            Table(s, s.sent[k].to.node)[r := Entry("", s.sent[k].to.session)]
  {
    hide Table;
  }

  /** What handling a response does to the network, in terms of its outcome. */
  lemma BackApplies(top: Topology, s: State, s': State, k: nat, newId: Id, r: Id)
    requires Delivers(top, s, s', k, newId) && Arriving(top, s, k, r)
    requires Handle(top, s, s.sent[k], newId).requests ==
             Table(s, s.sent[k].to.node)[r := Entry("", s.sent[k].to.session)]
    ensures var p, n, j := s.sent[k], s.sent[k].to.node, s.journeys[r];
            var o := Handle(top, s, p, newId);
            && Sendable(top, n, o)
            && (forall m: nat ::
                  Table(s', m) == if m == n then Table(s, n)[r := Entry("", p.to.session)] else Table(s, m))
            && s'.handled == s.handled + {k} && s'.searches == s.searches && s'.sent == s.sent + Packets(top, n, o)
            && s'.events == s.events + Tag(n, o.events)
            && s'.journeys == s.journeys[r := Journey(j.reqId, j.trail + [n], NextStage(s, r, n))]
  {
    hide Table, Handle, Packets;
    forall m: nat
      ensures Table(s', m) ==
              if m == s.sent[k].to.node then Table(s, m)[r := Entry("", s.sent[k].to.session)] else Table(s, m)
    {
      DeliverTables(top, s, s', k, newId, m);
    }
  }

  lemma BackIds(top: Topology, s: State, s': State, k: nat, r: Id)
    requires IdsOk(s) && Arriving(top, s, k, r) && s'.searches == s.searches && |s.sent| <= |s'.sent|
    requires s'.handled == s.handled + {k} && s'.journeys.Keys == s.journeys.Keys
    requires forall m: nat, id <- Table(s', m) :: id in Table(s, m) || id == r
    ensures IdsOk(s')
  {
    hide Table;
    IdsApart(s);
    IdsFollow(s, s');
  }

  lemma BackOpens(s: State, s': State, k: nat, r: Id, o: Outcome)
    requires k < |s.sent| && s'.events == s.events + Tag(s.sent[k].to.node, o.events)
    ensures forall ev | o.events == [ev] :: (s.sent[k].to.node, ev) in s'.events
  {
    forall ev | o.events == [ev]
      ensures (s.sent[k].to.node, ev) in s'.events
    {
      assert s'.events[|s.events|] == (s.sent[k].to.node, ev);
    }
  }

  lemma BackForm(top: Topology, s: State, s': State, k: nat, newId: Id, r: Id)
    requires TopologyOk(top) && IdsOk(s) && Delivers(top, s, s', k, newId) && Arriving(top, s, k, r)
    ensures BackMoved(top, s, s', k, r) && IdsOk(s')
  {
    hide TopologyOk, Handle, Table, SessionsOf;
    var o := Handle(top, s, s.sent[k], newId);
    BackRecords(top, s, k, newId, r);
    BackSends(top, s, k, r, newId);
    BackApplies(top, s, s', k, newId, r);
    hide Table, Handle, OnMessage, TopologyOk, Delivers;
    BackIds(top, s, s', k, r);
    BackOpens(s, s', k, r, o);
  }

  /** What the node sends and opens for a response. */
  lemma BackSends(top: Topology, s: State, k: nat, r: Id, newId: Id)
    requires Arriving(top, s, k, r) && r != s.journeys[r].reqId && TopologyOk(top)
    ensures var p, n, j := s.sent[k], s.sent[k].to.node, s.journeys[r];
            var o := Handle(top, s, p, newId);
            if n == Origin(s.searches[j.reqId]) then
              && o.sends == [Outgoing(p.to.session, PathAddress(r, n))]
              && o.events == [Fetch(j.trail[0], s.searches[j.reqId].fileId)]
              && Sendable(top, n, o) && Packets(top, n, o) == [Packet(top.links[p.to], PathAddress(r, n))]
            else
              && o.sends == [Outgoing(Table(s, n)[j.reqId].from, p.msg)] && o.events == []
              && Sendable(top, n, o)
              && Packets(top, n, o) == [Packet(top.links[BackPort(s, n, j.reqId)], p.msg)]
  {
    assert Port(s.sent[k].to.node, s.sent[k].to.session) == s.sent[k].to;
  }

  /** The trail grows by the node a response has reached. */
  lemma TrailGrows(top: Topology, s: State, s': State, k: nat, r: Id)
    requires Grows(s, s') && Arriving(top, s, k, r) && JourneyOk(top, s, r)
    requires var n, j := s.sent[k].to.node, s.journeys[r];
             && s'.searches == s.searches && SearchOk(top, s', j.reqId)
             && r in s'.journeys && s'.journeys[r].reqId == j.reqId && s'.journeys[r].trail == j.trail + [n]
             && (forall m: nat :: r in Table(s', m) <==> r in Table(s, m) || m == n)
             && Table(s', n)[r] == Entry("", s.sent[k].to.session)
             && n in s.searches[j.reqId].order
    requires s'.searches[s.journeys[r].reqId].order != []
    requires forall m <- s'.journeys[r].trail :: r in Table(s', m) && s.journeys[r].reqId in Table(s', m)
    requires StageOk(top, s', r)
    ensures JourneyOk(top, s', r)
  {
    hide PointsBack, StageOk, SearchOk;
    var n, t := s.sent[k].to.node, s.journeys[r].trail;
    assert (t + [n])[0] == t[0];
    forall m: nat
      ensures m in t + [n] <==> r in Table(s', m)
    {
    }
    forall i | 0 < i < |t + [n]|
      ensures TrailStep(top, s', r, i)
    {
      if i < |t| {
        TrailStepAt(top, s, r, i);
      } else {
        assert (t + [n])[i - 1] == t[|t| - 1] && (t + [n])[i] == n;
        assert BackPort(s', n, r) == s.sent[k].to;
      }
    }
  }

  lemma TrailRecorded(top: Topology, s: State, r: Id)
    requires r in s.journeys && JourneyOk(top, s, r)
    ensures s.journeys[r].reqId in s.searches && SearchOk(top, s, s.journeys[r].reqId)
    ensures forall m <- s.journeys[r].trail :: r in Table(s, m) && s.journeys[r].reqId in Table(s, m)
  {
    hide PointsBack;
  }

  lemma BackStageNext(top: Topology, s: State, s': State, k: nat, r: Id)
    requires TopologyOk(top) && Grows(s, s') && Arriving(top, s, k, r) && IdsOk(s)
    requires var p, n, j := s.sent[k], s.sent[k].to.node, s.journeys[r];
             && s'.searches == s.searches && s'.handled == s.handled + {k}
             && s'.journeys == s.journeys[r := Journey(j.reqId, j.trail + [n], NextStage(s, r, n))]
             && r in Table(s', n) && Table(s', n)[r] == Entry("", p.to.session)
             && (n == Origin(s.searches[j.reqId]) ==>
                   && s'.sent == s.sent + [Packet(top.links[p.to], PathAddress(r, n))]
                   && (n, Fetch(j.trail[0], s.searches[j.reqId].fileId)) in s'.events)
             && (n != Origin(s.searches[j.reqId]) ==>
                   s'.sent == s.sent + [Packet(top.links[BackPort(s, n, j.reqId)], p.msg)])
    requires forall m <- s'.journeys[r].trail :: r in Table(s', m) && s.journeys[r].reqId in Table(s', m)
    ensures StageOk(top, s', r)
  {
    var p, n, j := s.sent[k], s.sent[k].to.node, s.journeys[r];
    var t' := j.trail + [n];
    assert t'[0] == j.trail[0] && t'[|t'| - 1] == n;
    NotHandledYet(s, s', |s.sent|, k);
    hide IdsOk, TopologyOk;
    if n == Origin(s.searches[j.reqId]) {
      assert BackPort(s', t'[|j.trail|], r) == p.to;
    } else {
      assert BackPort(s', n, j.reqId) == BackPort(s, n, j.reqId);
    }
  }

  /** Packets not being handled, when one response moves. */
  lemma OldPacketsMove(top: Topology, s: State, s': State, k: nat, r: Id)
    requires Inv(top, s) && Grows(s, s') && Pending(s, k) && s'.handled == s.handled + {k}
    requires r in s.journeys
    requires s.journeys[r].stage == Back(k) || (s.journeys[r].stage.Forth? && s.journeys[r].stage.k == k)
    requires forall i <- s.journeys | i != r :: i in s'.journeys && s'.journeys[i].stage == s.journeys[i].stage
    requires s.sent[k].msg.PathRequest? ==> false
    ensures forall i | 0 <= i < |s.sent| :: PacketOk(top, s', i)
  {
    hide JourneyOk, SearchInv, OncePerPort, IdsOk, RequestOk;
    forall i | 0 <= i < |s.sent|
      ensures PacketOk(top, s', i)
    {
      PacketJourney(top, s, i);
      if i != k {
        PacketKeeps(top, s, s', i);
      }
    }
  }

  /** No other response waits for the packet of response `r`. */
  lemma OtherStages(top: Topology, s: State, k: nat, r: Id)
    requires Inv(top, s) && k < |s.sent| && !s.sent[k].msg.PathRequest? && s.sent[k].msg.respId == r
    ensures forall i <- s.journeys | i != r && s.journeys[i].stage.Back? :: s.journeys[i].stage.k !in s.handled + {k}
    ensures forall i <- s.journeys | i != r && s.journeys[i].stage.Forth? :: s.journeys[i].stage.k !in s.handled + {k}
  {
    hide PacketOk, SearchInv, OncePerPort, IdsOk, SearchOk, TrailStep;
    forall i <- s.journeys | i != r
      ensures s.journeys[i].stage.Back? ==> s.journeys[i].stage.k !in s.handled + {k}
      ensures s.journeys[i].stage.Forth? ==> s.journeys[i].stage.k !in s.handled + {k}
    {
      assert JourneyOk(top, s, i);
    }
  }

  lemma JourneyAt(top: Topology, s: State, r: Id)
    requires Inv(top, s) && r in s.journeys
    ensures JourneyOk(top, s, r) && s.journeys[r].reqId in s.searches && SearchInv(top, s, s.journeys[r].reqId)
  {
    hide SearchInv, PacketOk;
    assert JourneyOk(top, s, r);
  }

  /** A packet just sent for a response that waits for it. */
  lemma NewPacketOk(top: Topology, s: State, i: nat, r: Id)
    requires i < |s.sent| && s.sent[i].to in top.links && r in s.journeys
    requires s.sent[i].msg.PathResponse? && s.sent[i].msg.respId == r ==> s.journeys[r].stage == Back(i)
    requires s.sent[i].msg.PathAddress? && s.sent[i].msg.respId == r ==>
               s.journeys[r].stage.Forth? && s.journeys[r].stage.k == i
    requires !s.sent[i].msg.PathRequest? && s.sent[i].msg.respId == r
    ensures PacketOk(top, s, i)
  {
  }

  lemma BackKeeps(top: Topology, s: State, s': State, k: nat, newId: Id)
    requires TopologyOk(top) && Inv(top, s) && Delivers(top, s, s', k, newId) && s.sent[k].msg.PathResponse?
    ensures Inv(top, s')
  {
    var r := s.sent[k].msg.respId;
    hide SearchInv, PacketOk, JourneyOk, Handle, Packets, Searches, Journeys, TopologyOk, Table;
    hide OncePerPort, Grows, SameFor, SearchOk;
    ArrivingFacts(top, s, k);
    BackForm(top, s, s', k, newId, r);
    hide Delivers, IdsOk, Arriving, BackMoved, Inv;
    BackJourney(top, s, s', k, r);
    BackPackets(top, s, s', k, r);
    OtherStages(top, s, k, r);
    BackRest(top, s, s', k, r);
  }

  lemma BackRest(top: Topology, s: State, s': State, k: nat, r: Id)
    requires Inv(top, s) && IdsOk(s') && BackMoved(top, s, s', k, r) && OncePerPort(s')
    requires SearchInv(top, s', s.journeys[r].reqId) && JourneyOk(top, s', r)
    requires forall i | 0 <= i < |s'.sent| :: PacketOk(top, s', i)
    requires forall i <- s.journeys | i != r && s.journeys[i].stage.Back? :: s.journeys[i].stage.k !in s.handled + {k}
    requires forall i <- s.journeys | i != r && s.journeys[i].stage.Forth? :: s.journeys[i].stage.k !in s.handled + {k}
    ensures Inv(top, s')
  {
    var id := s.journeys[r].reqId;
    NotItself(top, s, s', k, r);
    OthersStay(top, s, s', k, r);
    hide *;
    RestKeeps(top, s, s', id, r);
  }

  lemma OthersStay(top: Topology, s: State, s': State, k: nat, r: Id)
    requires BackMoved(top, s, s', k, r)
    ensures Grows(s, s') && s'.handled == s.handled + {k} && s'.searches == s.searches && r in s.journeys
    ensures s.journeys[r].stage == Back(k) && Pending(s, k) && s.sent[k].msg.PathResponse?
    ensures forall i <- s'.journeys | i != r :: i in s.journeys && s'.journeys[i] == s.journeys[i] && SameFor(s, s', i)
    ensures forall i <- s.journeys | i != r :: i in s'.journeys && s'.journeys[i].stage == s.journeys[i].stage
  {
    hide SearchInv, PacketOk, JourneyOk, Table, OncePerPort, Grows, SameFor;
  }

  lemma NotItself(top: Topology, s: State, s': State, k: nat, r: Id)
    requires Inv(top, s) && BackMoved(top, s, s', k, r)
    ensures r != s.journeys[r].reqId && forall id <- s.searches :: SameFor(s, s', id)
  {
    hide SearchInv, PacketOk, JourneyOk, Table, OncePerPort, Grows, SameFor;
  }

  lemma BackJourney(top: Topology, s: State, s': State, k: nat, r: Id)
    requires TopologyOk(top) && Inv(top, s) && BackMoved(top, s, s', k, r)
    ensures SearchInv(top, s', s.journeys[r].reqId) && JourneyOk(top, s', r)
  {
    var j := s.journeys[r];
    hide SearchInv, PacketOk, JourneyOk, Table, OncePerPort, Grows, SameFor, IdsOk, PointsBack, SearchOk, StageOk;
    JourneyAt(top, s, r);
    NotItself(top, s, s', k, r);
    SearchKeeps(top, s, s', j.reqId);
    SearchParts(top, s', j.reqId);
    TrailRecorded(top, s, r);
    hide Inv, TopologyOk;
    GrowsTrail(s, s', k, r);
    BackStageNext(top, s, s', k, r);
    BackTrail(top, s, s', k, r);
  }

  lemma BackTrail(top: Topology, s: State, s': State, k: nat, r: Id)
    requires BackMoved(top, s, s', k, r) && JourneyOk(top, s, r) && SearchOk(top, s', s.journeys[r].reqId)
    requires s'.searches[s.journeys[r].reqId].order != []
    requires forall m <- s'.journeys[r].trail :: r in Table(s', m) && s.journeys[r].reqId in Table(s', m)
    requires StageOk(top, s', r)
    ensures JourneyOk(top, s', r)
  {
    hide SearchOk, StageOk, JourneyOk, Grows, SameFor, Table;
    TrailGrows(top, s, s', k, r);
  }

  lemma BackPackets(top: Topology, s: State, s': State, k: nat, r: Id)
    requires TopologyOk(top) && Inv(top, s) && BackMoved(top, s, s', k, r)
    ensures OncePerPort(s')
    ensures forall i | 0 <= i < |s'.sent| :: PacketOk(top, s', i)
  {
    hide *;
    InvParts(top, s);
    OthersStay(top, s, s', k, r);
    OldPacketsMove(top, s, s', k, r);
    BackNewPacket(top, s, s', k, r);
  }

  lemma InvParts(top: Topology, s: State)
    requires Inv(top, s)
    ensures OncePerPort(s) && IdsOk(s)
  {
  }

  lemma BackNewPacket(top: Topology, s: State, s': State, k: nat, r: Id)
    requires TopologyOk(top) && OncePerPort(s) && BackMoved(top, s, s', k, r)
    ensures OncePerPort(s') && |s'.sent| == |s.sent| + 1 && PacketOk(top, s', |s.sent|)
  {
    var p, n, j := s.sent[k], s.sent[k].to.node, s.journeys[r];
    var out := if n == Origin(s.searches[j.reqId]) then Packet(top.links[p.to], PathAddress(r, n))
               else Packet(top.links[BackPort(s, n, j.reqId)], p.msg);
    hide OncePerPort, Grows, SameFor;
    assert s'.sent == s.sent + [out] && out.to in top.links;
    OnceOther(s, s', out);
    hide PacketOk;
    NewPacketOk(top, s', |s.sent|, r);
  }

  lemma GrowsTrail(s: State, s': State, k: nat, r: Id)
    requires Grows(s, s') && k < |s.sent| && r in s.journeys && r in s'.journeys
    requires s'.journeys[r].trail == s.journeys[r].trail + [s.sent[k].to.node]
    requires r in Table(s', s.sent[k].to.node) && s.journeys[r].reqId in Table(s, s.sent[k].to.node)
    requires forall m <- s.journeys[r].trail :: r in Table(s, m) && s.journeys[r].reqId in Table(s, m)
    ensures forall m <- s'.journeys[r].trail :: r in Table(s', m) && s.journeys[r].reqId in Table(s', m)
  {
    hide Table;
  }

  // ---------------------------------------------------------------- an address message on its way forth

  /** What is known of an address message when it arrives: it goes along the trail. */
  ghost predicate Returning(top: Topology, s: State, k: nat, r: Id) {
    && Pending(s, k) && r in s.journeys && s.journeys[r].reqId in s.searches
    && s.searches[s.journeys[r].reqId].order != []
    && s.journeys[r].stage.Forth? && s.journeys[r].stage.k == k
    && 0 < s.journeys[r].stage.left < |s.journeys[r].trail|
    && var j, n := s.journeys[r], s.sent[k].to.node;
    && n == j.trail[j.stage.left - 1] && s.sent[k].to in top.links
    && s.sent[k].msg == PathAddress(r, Origin(s.searches[j.reqId]))
    && r in Table(s, n)
    && (j.stage.left == 1 ==> Table(s, n)[r] == Entry(s.searches[j.reqId].fileId, 0))
    && (j.stage.left > 1 ==> Table(s, n)[r].from != 0 && BackPort(s, n, r) in top.links)
  }

  lemma ForthStage(top: Topology, s: State, r: Id, k: nat)
    requires r in s.journeys && JourneyOk(top, s, r) && s.journeys[r].stage.Forth? && s.journeys[r].stage.k == k
    ensures var j := s.journeys[r];
            && j.reqId in s.searches && s.searches[j.reqId].order != [] && 0 < j.stage.left < |j.trail|
            && r in Table(s, j.trail[j.stage.left]) && BackPort(s, j.trail[j.stage.left], r) in top.links
            && Pending(s, k)
            && s.sent[k] == Packet(top.links[BackPort(s, j.trail[j.stage.left], r)],
                                   PathAddress(r, Origin(s.searches[j.reqId])))
  {
    hide PointsBack, TrailStep, Table;
  }

  lemma TrailStart(top: Topology, s: State, r: Id)
    requires r in s.journeys && JourneyOk(top, s, r)
    ensures var j := s.journeys[r];
            && j.trail != [] && j.reqId in s.searches && r in Table(s, j.trail[0])
            && Table(s, j.trail[0])[r] == Entry(s.searches[j.reqId].fileId, 0)
  {
    hide PointsBack, TrailStep, Table, StageOk;
  }

  lemma LinkedBack(top: Topology, p: Port)
    requires TopologyOk(top) && p in top.links
    ensures top.links[p] in top.links && top.links[top.links[p]] == p && p.session != 0 && top.links[p].session != 0
  {
  }

  lemma AddressStage(top: Topology, s: State, k: nat)
    requires Inv(top, s) && Pending(s, k) && s.sent[k].msg.PathAddress?
    ensures var r := s.sent[k].msg.respId;
            r in s.journeys && s.journeys[r].stage.Forth? && s.journeys[r].stage.k == k
  {
    hide SearchInv, OncePerPort, IdsOk, JourneyOk;
    assert PacketOk(top, s, k);
  }

  /** The message has come to the node before on the trail. */
  lemma ReturnsOn(top: Topology, s: State, k: nat, r: Id)
    requires TopologyOk(top) && Pending(s, k) && r in s.journeys && s.journeys[r].stage.Forth?
    requires var j, left := s.journeys[r], s.journeys[r].stage.left;
             && j.stage.k == k && 1 < left < |j.trail| && j.reqId in s.searches && s.searches[j.reqId].order != []
             && r in Table(s, j.trail[left]) && r in Table(s, j.trail[left - 1])
             && j.reqId in Table(s, j.trail[left - 1]) && j.reqId in Table(s, j.trail[left - 2])
             && BackPort(s, j.trail[left - 1], j.reqId) in top.links
             && top.links[BackPort(s, j.trail[left - 1], j.reqId)] == BackPort(s, j.trail[left], r)
             && BackPort(s, j.trail[left - 2], j.reqId) in top.links
             && top.links[BackPort(s, j.trail[left - 2], j.reqId)] == BackPort(s, j.trail[left - 1], r)
             && BackPort(s, j.trail[left], r) in top.links
             && s.sent[k] == Packet(top.links[BackPort(s, j.trail[left], r)],
                                    PathAddress(r, Origin(s.searches[j.reqId])))
    ensures Returning(top, s, k, r)
  {
    var t, left, id := s.journeys[r].trail, s.journeys[r].stage.left, s.journeys[r].reqId;
    LinkedBack(top, BackPort(s, t[left - 1], id));
    LinkedBack(top, BackPort(s, t[left - 2], id));
    hide TopologyOk, Table;
  }

  /** The message has come to the responder. */
  lemma ReturnsLast(top: Topology, s: State, k: nat, r: Id)
    requires TopologyOk(top) && Pending(s, k) && r in s.journeys && s.journeys[r].stage.Forth?
    requires var j := s.journeys[r];
             && j.stage.k == k && j.stage.left == 1 < |j.trail| && j.reqId in s.searches
             && s.searches[j.reqId].order != []
             && r in Table(s, j.trail[1]) && r in Table(s, j.trail[0]) && j.reqId in Table(s, j.trail[0])
             && BackPort(s, j.trail[0], j.reqId) in top.links
             && top.links[BackPort(s, j.trail[0], j.reqId)] == BackPort(s, j.trail[1], r)
             && BackPort(s, j.trail[1], r) in top.links
             && Table(s, j.trail[0])[r] == Entry(s.searches[j.reqId].fileId, 0)
             && s.sent[k] == Packet(top.links[BackPort(s, j.trail[1], r)],
                                    PathAddress(r, Origin(s.searches[j.reqId])))
    ensures Returning(top, s, k, r)
  {
    LinkedBack(top, BackPort(s, s.journeys[r].trail[0], s.journeys[r].reqId));
    hide TopologyOk, Table;
  }

  lemma ReturningFacts(top: Topology, s: State, k: nat)
    requires TopologyOk(top) && Inv(top, s) && Pending(s, k) && s.sent[k].msg.PathAddress?
    ensures Returning(top, s, k, s.sent[k].msg.respId)
  {
    var r := s.sent[k].msg.respId;
    AddressStage(top, s, k);
    hide *;
    JourneyAt(top, s, r);
    ForthStage(top, s, r, k);
    var t, left, id := s.journeys[r].trail, s.journeys[r].stage.left, s.journeys[r].reqId;
    TrailStepAt(top, s, r, left);
    TrailStart(top, s, r);
    if left > 1 {
      TrailStepAt(top, s, r, left - 1);
      ReturnsOn(top, s, k, r);
    } else {
      ReturnsLast(top, s, k, r);
    }
  }

  /** The address message has moved one node along the trail. */
  ghost predicate ForthMoved(top: Topology, s: State, s': State, k: nat, r: Id) {
    && Returning(top, s, k, r) && Grows(s, s') && s'.handled == s.handled + {k} && s'.searches == s.searches
    && (forall i :: SameFor(s, s', i))
    && var p, n, j := s.sent[k], s.sent[k].to.node, s.journeys[r];
    && s'.journeys == s.journeys[r := j.(stage := if j.stage.left == 1 then Done else Forth(|s.sent|, j.stage.left - 1))]
    && (j.stage.left == 1 ==>
          s'.sent == s.sent && (n, Serve(Origin(s.searches[j.reqId]), s.searches[j.reqId].fileId)) in s'.events)
    && (j.stage.left > 1 ==> s'.sent == s.sent + [Packet(top.links[BackPort(s, n, r)], p.msg)])
  }

  /** What handling an address message does to the network, in terms of its outcome. */
  lemma ForthApplies(top: Topology, s: State, s': State, k: nat, newId: Id, r: Id)
    requires Delivers(top, s, s', k, newId) && Returning(top, s, k, r)
    ensures var p, n, j := s.sent[k], s.sent[k].to.node, s.journeys[r];
            var o := Handle(top, s, p, newId);
            && Sendable(top, n, o) && (forall m: nat :: Table(s', m) == Table(s, m))
            && s'.handled == s.handled + {k} && s'.searches == s.searches && s'.sent == s.sent + Packets(top, n, o)
            && s'.events == s.events + Tag(n, o.events)
            && s'.journeys == s.journeys[r :=
                 j.(stage := if j.stage.left == 1 then Done else Forth(|s.sent|, j.stage.left - 1))]
  {
    var p, n := s.sent[k], s.sent[k].to.node;
    assert Handle(top, s, p, newId).requests == Table(s, n);
    hide Table, Handle, Packets;
    forall m: nat
      ensures Table(s', m) == Table(s, m)
    {
      DeliverTables(top, s, s', k, newId, m);
    }
  }

  lemma ForthIds(s: State, s': State, k: nat)
    requires IdsOk(s) && k < |s.sent| <= |s'.sent| && s'.searches == s.searches
    requires s'.handled == s.handled + {k} && s'.journeys.Keys == s.journeys.Keys
    requires forall m: nat :: Table(s', m) == Table(s, m)
    ensures IdsOk(s')
  {
    hide Table;
    IdsApart(s);
    IdsFollow(s, s');
  }

  lemma ForthGrows(s: State, s': State, r: Id)
    requires s.sent <= s'.sent && s.handled <= s'.handled && s.events <= s'.events && s'.searches == s.searches
    requires forall m: nat :: Table(s', m) == Table(s, m)
    requires r in s.journeys && r in s'.journeys
    requires s'.journeys == s.journeys[r := s.journeys[r].(stage := s'.journeys[r].stage)]
    ensures Grows(s, s') && forall i :: SameFor(s, s', i)
  {
    hide Table;
  }

  lemma ForthForm(top: Topology, s: State, s': State, k: nat, newId: Id, r: Id)
    requires TopologyOk(top) && IdsOk(s) && Delivers(top, s, s', k, newId) && Returning(top, s, k, r)
    ensures ForthMoved(top, s, s', k, r) && IdsOk(s')
  {
    var o := Handle(top, s, s.sent[k], newId);
    ForthSends(top, s, k, r, newId);
    ForthApplies(top, s, s', k, newId, r);
    hide Table, Handle, OnMessage, TopologyOk, Delivers;
    ForthIds(s, s', k);
    BackOpens(s, s', k, r, o);
    ForthGrows(s, s', r);
    hide Grows, SameFor, IdsOk;
  }

  lemma ForthSends(top: Topology, s: State, k: nat, r: Id, newId: Id)
    requires Returning(top, s, k, r) && TopologyOk(top)
    ensures var p, n, j := s.sent[k], s.sent[k].to.node, s.journeys[r];
            var o := Handle(top, s, p, newId);
            if j.stage.left == 1 then
              && o.sends == [] && o.events == [Serve(Origin(s.searches[j.reqId]), s.searches[j.reqId].fileId)]
              && Sendable(top, n, o) && Packets(top, n, o) == []
            else
              && o.sends == [Outgoing(Table(s, n)[r].from, p.msg)] && o.events == []
              && Sendable(top, n, o)
              && Packets(top, n, o) == [Packet(top.links[BackPort(s, n, r)], p.msg)]
  {
    assert Port(s.sent[k].to.node, s.sent[k].to.session) == s.sent[k].to;
  }

  lemma ForthStays(top: Topology, s: State, s': State, k: nat, r: Id)
    requires ForthMoved(top, s, s', k, r)
    ensures Grows(s, s') && s'.handled == s.handled + {k} && s'.searches == s.searches && r in s.journeys && r in s'.journeys
    ensures s.journeys[r].stage.Forth? && s.journeys[r].stage.k == k && Pending(s, k) && s.sent[k].msg.PathAddress?
    ensures s.sent[k].msg.respId == r
    ensures s'.journeys[r].reqId == s.journeys[r].reqId && s'.journeys[r].trail == s.journeys[r].trail
    ensures forall i :: SameFor(s, s', i)
    ensures forall i <- s'.journeys | i != r :: i in s.journeys && s'.journeys[i] == s.journeys[i]
    ensures forall i <- s.journeys | i != r :: i in s'.journeys && s'.journeys[i].stage == s.journeys[i].stage
  {
    hide Table, Grows, SameFor;
  }

  lemma ForthKeeps(top: Topology, s: State, s': State, k: nat, newId: Id)
    requires TopologyOk(top) && Inv(top, s) && Delivers(top, s, s', k, newId) && s.sent[k].msg.PathAddress?
    ensures Inv(top, s')
  {
    var r := s.sent[k].msg.respId;
    ReturningFacts(top, s, k);
    hide *;
    InvParts(top, s);
    ForthForm(top, s, s', k, newId, r);
    ForthStays(top, s, s', k, r);
    JourneyAt(top, s, r);
    SearchKeeps(top, s, s', s.journeys[r].reqId);
    ForthJourney(top, s, s', k, r);
    ForthPackets(top, s, s', k, r);
    OtherStages(top, s, k, r);
    RestKeeps(top, s, s', s.journeys[r].reqId, r);
  }

  lemma ForthPackets(top: Topology, s: State, s': State, k: nat, r: Id)
    requires TopologyOk(top) && Inv(top, s) && ForthMoved(top, s, s', k, r)
    ensures OncePerPort(s')
    ensures forall i | 0 <= i < |s'.sent| :: PacketOk(top, s', i)
  {
    hide *;
    InvParts(top, s);
    ForthStays(top, s, s', k, r);
    OldPacketsMove(top, s, s', k, r);
    ForthNewPacket(top, s, s', k, r);
  }

  lemma ForthNewPacket(top: Topology, s: State, s': State, k: nat, r: Id)
    requires TopologyOk(top) && OncePerPort(s) && ForthMoved(top, s, s', k, r)
    ensures OncePerPort(s') && |s.sent| <= |s'.sent| <= |s.sent| + 1
    ensures |s'.sent| == |s.sent| + 1 ==> PacketOk(top, s', |s.sent|)
  {
    hide OncePerPort, Grows, SameFor;
    if s.journeys[r].stage.left > 1 {
      var out := Packet(top.links[BackPort(s, s.sent[k].to.node, r)], s.sent[k].msg);
      OnceOther(s, s', out);
      hide PacketOk;
      NewPacketOk(top, s', |s.sent|, r);
    } else {
      OnceSame(s, s');
    }
  }

  lemma OnceSame(s: State, s': State)
    requires OncePerPort(s) && s'.sent == s.sent
    ensures OncePerPort(s')
  {
  }

  lemma ForthNow(top: Topology, s: State, s': State, k: nat, r: Id)
    requires ForthMoved(top, s, s', k, r)
    ensures var p, n, j := s.sent[k], s.sent[k].to.node, s.journeys[r];
            && j.stage.Forth? && 0 < j.stage.left < |j.trail| && n == j.trail[j.stage.left - 1]
            && j.reqId in s.searches && s.searches[j.reqId].order != []
            && p.msg == PathAddress(r, Origin(s.searches[j.reqId]))
            && s'.searches == s.searches && s.events <= s'.events && s'.handled == s.handled + {k} && r in s'.journeys
            && s'.journeys[r] == j.(stage := if j.stage.left == 1 then Done else Forth(|s.sent|, j.stage.left - 1))
            && r in Table(s, n) && r in Table(s', n) && Table(s', n)[r] == Table(s, n)[r] && k < |s.sent|
            && (j.stage.left == 1 ==>
                  s'.sent == s.sent && (n, Serve(Origin(s.searches[j.reqId]), s.searches[j.reqId].fileId)) in s'.events)
            && (j.stage.left > 1 ==>
                  BackPort(s, n, r) in top.links
                  && s'.sent == s.sent + [Packet(top.links[BackPort(s, n, r)], p.msg)])
  {
    hide SameFor, Table;
  }

  lemma ForthEnds(top: Topology, s: State, r: Id)
    requires r in s.journeys && JourneyOk(top, s, r) && s.journeys[r].stage.Forth?
    ensures var j := s.journeys[r];
            && j.trail != [] && j.reqId in s.searches && s.searches[j.reqId].order != []
            && j.trail[|j.trail| - 1] == Origin(s.searches[j.reqId])
            && (Origin(s.searches[j.reqId]), Fetch(j.trail[0], s.searches[j.reqId].fileId)) in s.events
  {
    hide PointsBack, TrailStep, Table;
  }

  lemma ForthStageIs(top: Topology, s: State, s': State, k: nat, r: Id)
    requires k < |s.sent| && r in s.journeys && r in s'.journeys && s'.searches == s.searches && s.events <= s'.events
    requires |s.sent| !in s'.handled
    requires var j := s.journeys[r];
             && j.stage.Forth? && 0 < j.stage.left < |j.trail| && j.reqId in s.searches
             && s.searches[j.reqId].order != [] && j.trail[|j.trail| - 1] == Origin(s.searches[j.reqId])
             && (Origin(s.searches[j.reqId]), Fetch(j.trail[0], s.searches[j.reqId].fileId)) in s.events
             && s'.journeys[r] == j.(stage := if j.stage.left == 1 then Done else Forth(|s.sent|, j.stage.left - 1))
    requires forall m <- s'.journeys[r].trail :: r in Table(s', m) && s.journeys[r].reqId in Table(s', m)
    requires var p, n, j := s.sent[k], s.sent[k].to.node, s.journeys[r];
             && n == j.trail[j.stage.left - 1] && r in Table(s, n) && r in Table(s', n)
             && Table(s', n)[r] == Table(s, n)[r] && p.msg == PathAddress(r, Origin(s.searches[j.reqId]))
             && (j.stage.left == 1 ==>
                   (n, Serve(Origin(s.searches[j.reqId]), s.searches[j.reqId].fileId)) in s'.events)
             && (j.stage.left > 1 ==>
                   BackPort(s, n, r) in top.links
                   && s'.sent == s.sent + [Packet(top.links[BackPort(s, n, r)], p.msg)])
    ensures StageOk(top, s', r)
  {
    hide Table;
    var j, n := s.journeys[r], s.sent[k].to.node;
    if j.stage.left > 1 {
      assert BackPort(s', n, r) == BackPort(s, n, r);
      assert s'.sent[|s.sent|] == Packet(top.links[BackPort(s, n, r)], s.sent[k].msg);
    }
  }

  lemma ForthStageNext(top: Topology, s: State, s': State, k: nat, r: Id)
    requires ForthMoved(top, s, s', k, r) && JourneyOk(top, s, r) && IdsOk(s)
    requires SearchOk(top, s', s.journeys[r].reqId) && s'.searches[s.journeys[r].reqId].order != []
    requires forall m <- s'.journeys[r].trail :: r in Table(s', m) && s.journeys[r].reqId in Table(s', m)
    ensures StageOk(top, s', r)
  {
    ForthNow(top, s, s', k, r);
    ForthEnds(top, s, r);
    NotHandledYet(s, s', |s.sent|, k);
    hide *;
    ForthStageIs(top, s, s', k, r);
  }

  lemma ForthJourney(top: Topology, s: State, s': State, k: nat, r: Id)
    requires IdsOk(s) && ForthMoved(top, s, s', k, r) && JourneyOk(top, s, r)
    requires SearchInv(top, s', s.journeys[r].reqId)
    ensures JourneyOk(top, s', r)
  {
    hide *;
    ForthStays(top, s, s', k, r);
    SearchParts(top, s', s.journeys[r].reqId);
    SearchEntries(top, s', s.journeys[r].reqId);
    TrailStays(top, s, s', r);
    ForthStageNext(top, s, s', k, r);
    TrailWhole(top, s, s', r);
  }

  lemma TrailStays(top: Topology, s: State, s': State, r: Id)
    requires Grows(s, s') && r in s.journeys && JourneyOk(top, s, r)
    ensures forall m <- s.journeys[r].trail :: r in Table(s', m) && s.journeys[r].reqId in Table(s', m)
  {
    hide PointsBack, TrailStep, StageOk, Table;
  }

  /** A response that stays where it is, but for its stage. */
  lemma TrailWhole(top: Topology, s: State, s': State, r: Id)
    requires Grows(s, s') && r in s.journeys && JourneyOk(top, s, r) && SameFor(s, s', r) && s'.searches == s.searches
    requires r in s'.journeys && s'.journeys[r].reqId == s.journeys[r].reqId
    requires s'.journeys[r].trail == s.journeys[r].trail
    requires SearchOk(top, s', s.journeys[r].reqId) && s'.searches[s.journeys[r].reqId].order != []
    requires forall m <- s'.journeys[r].trail :: r in Table(s', m) && s.journeys[r].reqId in Table(s', m)
    requires StageOk(top, s', r)
    ensures JourneyOk(top, s', r)
  {
    hide PointsBack, StageOk, SearchOk;
    forall i | 0 < i < |s.journeys[r].trail|
      ensures TrailStep(top, s', r, i)
    {
      TrailStepAt(top, s, r, i);
    }
  }

  // ---------------------------------------------------------------- every step

  lemma DeliverKeeps(top: Topology, s: State, s': State, k: nat, newId: Id)
    requires TopologyOk(top) && Inv(top, s) && Delivers(top, s, s', k, newId)
    ensures Inv(top, s')
  {
    hide Inv, TopologyOk, Handle, Searches, Journeys, Packets;
    var p := s.sent[k];
    match p.msg
    case PathRequest(id, _, fileId) =>
      if id in Table(s, p.to.node) {
        AgainKeeps(top, s, s', k, newId);
      } else if (p.to.node, fileId) in top.holds {
        AnswerKeepsAll(top, s, s', k, newId);
      } else {
        PassOnKeeps(top, s, s', k, newId);
      }
    case PathResponse(_, _, _) => BackKeeps(top, s, s', k, newId);
    case PathAddress(_, _) => ForthKeeps(top, s, s', k, newId);
  }

  lemma StepKeeps(top: Topology, s: State, s': State)
    requires TopologyOk(top) && Inv(top, s) && Step(top, s, s')
    ensures Inv(top, s')
  {
    hide Inv, TopologyOk, Starts, Delivers;
    if n: nat, reqId: Id, fileId: Id :| Starts(top, s, s', n, reqId, fileId) {
      StartKeeps(top, s, s', n, reqId, fileId);
    } else {
      var k: nat, newId: Id :| Delivers(top, s, s', k, newId);
      DeliverKeeps(top, s, s', k, newId);
    }
  }
}
