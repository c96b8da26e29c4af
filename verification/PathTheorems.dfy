/** What every run of a file search guarantees. */
module PathTheorems {
  import opened Sequences
  import opened PathSearch
  import opened PathNetwork

  ghost predicate IsRun(top: Topology, run: seq<State>) {
    && Wired(top) && run != [] && run[0] == EMPTY
    && forall i | 0 < i < |run| :: Step(top, run[i - 1], run[i])
  }

  /** The state a run has come to. */
  function Now(run: seq<State>): State
    requires run != []
  {
    run[|run| - 1]
  }

  lemma InitRun(top: Topology, run: seq<State>)
    requires IsRun(top, run) && |run| > 1
    ensures IsRun(top, run[..|run| - 1]) && Step(top, Now(run[..|run| - 1]), Now(run))
  {
    hide Wired, Step;
    var init := run[..|run| - 1];
    forall i | 0 < i < |init|
      ensures Step(top, init[i - 1], init[i])
    {
      assert Step(top, run[i - 1], run[i]);
    }
    assert Step(top, run[|run| - 2], run[|run| - 1]);
  }

  lemma {:induction false} RunKeeps(top: Topology, run: seq<State>)
    requires IsRun(top, run)
    ensures Inv(top, Now(run))
  {
    if |run| > 1 {
      InitRun(top, run);
      RunTopology(top, run);
      hide *;
      RunKeeps(top, run[..|run| - 1]);
      StepKeeps(top, Now(run[..|run| - 1]), Now(run));
    }
  }

  /** Node `a` has recorded the id as come from node `b`. */
  predicate Leads(top: Topology, s: State, id: Id, a: nat, b: nat) {
    id in Table(s, a) && BackPort(s, a, id) in top.links && top.links[BackPort(s, a, id)].node == b
  }

  /** The id leads from each node of the path to the next. */
  ghost predicate Follows(top: Topology, s: State, id: Id, path: seq<nat>) {
    forall i | 0 < i < |path| :: Leads(top, s, id, path[i - 1], path[i])
  }

  /** The nodes a response from `n` comes through. */
  ghost function Route(top: Topology, s: State, id: Id, n: nat): seq<nat>
    requires id in s.searches && SearchOk(top, s, id) && n in s.searches[id].order
    decreases Pos(s.searches[id].order, n)
  {
    if n == Origin(s.searches[id]) then [n]
    else
      assert PointsBack(top, s, id, n);
      [n] + Route(top, s, id, top.links[BackPort(s, n, id)].node)
  }

  lemma {:induction false} RouteArrives(top: Topology, s: State, id: Id, n: nat)
    requires TopologyOk(top) && id in s.searches && SearchOk(top, s, id) && n in s.searches[id].order
    ensures var path := Route(top, s, id, n);
            && path != [] && path[0] == n && path[|path| - 1] == Origin(s.searches[id])
            && Follows(top, s, id, path)
    decreases Pos(s.searches[id].order, n)
  {
    if n != Origin(s.searches[id]) {
      assert PointsBack(top, s, id, n);
      RouteArrives(top, s, id, top.links[BackPort(s, n, id)].node);
    }
  }

  /** Pointers lead ever earlier in the order of recording. */
  lemma FollowsDescends(top: Topology, s: State, id: Id, path: seq<nat>)
    requires TopologyOk(top) && id in s.searches && SearchOk(top, s, id) && Follows(top, s, id, path)
    requires path != [] && path[0] in s.searches[id].order
    ensures Descends(s.searches[id].order, path)
  {
    hide SearchOk, PointsBack, Pos, Table, TopologyOk;
    var order := s.searches[id].order;
    for i := 1 to |path|
      invariant forall j | 0 <= j < i :: path[j] in order
      invariant forall j | 0 < j < i :: Pos(order, path[j]) < Pos(order, path[j - 1])
    {
      assert Leads(top, s, id, path[i - 1], path[i]);
      PointerNotZero(top, s, id, path[i - 1]);
      PointsAt(top, s, id, path[i - 1]);
    }
  }

  lemma PointsAt(top: Topology, s: State, id: Id, n: nat)
    requires id in s.searches && id in Table(s, n) && PointsBack(top, s, id, n)
    ensures var order := s.searches[id].order;
            && BackPort(s, n, id) in top.links && n in order && top.links[BackPort(s, n, id)].node in order
            && Pos(order, top.links[BackPort(s, n, id)].node) < Pos(order, n)
            && Forwards(top, s.searches[id], top.links[BackPort(s, n, id)].node)
  {
  }

  lemma DescendsDistinct(order: seq<nat>, path: seq<nat>)
    requires Descends(order, path)
    ensures Distinct(path)
  {
    hide Pos;
    forall i, j | 0 <= i < j < |path|
      ensures path[i] != path[j]
    {
      DescendsFar(order, path, i, j);
    }
  }

  /** From every node that has recorded a search, the recorded sessions lead to the node that began it, and no
      way along them repeats a node. */
  lemma PointersReachOriginator(top: Topology, run: seq<State>, id: Id, n: nat)
    requires IsRun(top, run) && id in Now(run).searches && id in Table(Now(run), n)
    ensures Now(run).searches[id].order != []
    ensures exists path ::
              && path != [] && path[0] == n && path[|path| - 1] == Origin(Now(run).searches[id])
              && Follows(top, Now(run), id, path)
    ensures forall path | path != [] && path[0] == n && Follows(top, Now(run), id, path) :: Distinct(path)
  {
    var s := Now(run);
    RunKeeps(top, run);
    RunTopology(top, run);
    hide Wired;
    assert SearchInv(top, s, id);
    assert n in s.searches[id].order;
    RouteArrives(top, s, id, n);
    hide *;
    forall path | path != [] && path[0] == n && Follows(top, s, id, path)
      ensures Distinct(path)
    {
      FollowsDescends(top, s, id, path);
      DescendsDistinct(s.searches[id].order, path);
    }
  }

  /** A response goes through different nodes from its responder towards the originator, and its own pointers
      lead back through the same nodes. */
  lemma ResponseRetraces(top: Topology, run: seq<State>, r: Id)
    requires IsRun(top, run) && r in Now(run).journeys
    ensures var s, j := Now(run), Now(run).journeys[r];
            && j.reqId in s.searches && j.trail != [] && s.searches[j.reqId].order != []
            && Distinct(j.trail) && Follows(top, s, j.reqId, j.trail) && Follows(top, s, r, Reversed(j.trail))
            && (!j.stage.Back? ==> j.trail[|j.trail| - 1] == Origin(s.searches[j.reqId]))
  {
    var s, j := Now(run), Now(run).journeys[r];
    RunKeeps(top, run);
    assert JourneyOk(top, s, r);
    RunTopology(top, run);
    JourneyEnds(top, s, r);
    TrailDescends(top, s, r);
    DescendsDistinct(s.searches[j.reqId].order, j.trail);
    hide *;
    TrailFollows(top, s, r);
    TrailRetraces(top, s, r);
  }

  lemma TrailFollows(top: Topology, s: State, r: Id)
    requires r in s.journeys && JourneyOk(top, s, r)
    ensures Follows(top, s, s.journeys[r].reqId, s.journeys[r].trail)
  {
    hide JourneyOk;
    forall i | 0 < i < |s.journeys[r].trail|
      ensures Leads(top, s, s.journeys[r].reqId, s.journeys[r].trail[i - 1], s.journeys[r].trail[i])
    {
      TrailStepAt(top, s, r, i);
    }
  }

  lemma TrailRetraces(top: Topology, s: State, r: Id)
    requires TopologyOk(top) && r in s.journeys && JourneyOk(top, s, r)
    ensures Follows(top, s, r, Reversed(s.journeys[r].trail))
  {
    hide JourneyOk, TopologyOk;
    var t, back := s.journeys[r].trail, Reversed(s.journeys[r].trail);
    forall i | 0 < i < |back|
      ensures Leads(top, s, r, back[i - 1], back[i])
    {
      TrailStepAt(top, s, r, |t| - i);
      LinkedBack(top, BackPort(s, t[|t| - i - 1], s.journeys[r].reqId));
    }
  }

  function Reversed(t: seq<nat>): (b: seq<nat>) {
    seq(|t|, i requires 0 <= i < |t| => t[|t| - 1 - i])
  }

  lemma RunTopology(top: Topology, run: seq<State>)
    requires IsRun(top, run)
    ensures TopologyOk(top)
  {
    WiredIsOk(top);
  }

  lemma JourneyEnds(top: Topology, s: State, r: Id)
    requires r in s.journeys && JourneyOk(top, s, r)
    ensures var j := s.journeys[r];
            && j.reqId in s.searches && j.trail != [] && s.searches[j.reqId].order != []
            && (!j.stage.Back? ==> j.trail[|j.trail| - 1] == Origin(s.searches[j.reqId]))
  {
    hide PointsBack, TrailStep, Table;
  }

  // ---------------------------------------------------------------- how much is sent

  /** The numbers of the request packets of a search. */
  function Requests(s: State, id: Id): set<nat> {
    set k: nat | k < |s.sent| && s.sent[k].msg.PathRequest? && s.sent[k].msg.reqId == id
  }

  lemma {:induction false} Injects(ks: set<nat>, sent: seq<Packet>, ports: set<Port>)
    requires forall k <- ks :: k < |sent| && sent[k].to in ports
    requires forall j, k | j in ks && k in ks && j != k :: sent[j].to != sent[k].to
    ensures |ks| <= |ports|
    decreases |ks|
  {
    if ks != {} {
      var k :| k in ks;
      forall j <- ks - {k}
        ensures sent[j].to in ports - {sent[k].to}
      {
      }
      Injects(ks - {k}, sent, ports - {sent[k].to});
    }
  }

  /** A search sends at most one request over each session in each direction: no more than the nodes have
      sessions, all told. */
  lemma FloodIsBounded(top: Topology, run: seq<State>, id: Id)
    requires IsRun(top, run)
    ensures |Requests(Now(run), id)| <= |top.links.Keys|
  {
    var s := Now(run);
    RunKeeps(top, run);
    hide SearchInv, JourneyOk, IsRun;
    forall k <- Requests(s, id)
      ensures s.sent[k].to in top.links
    {
      assert PacketOk(top, s, k);
    }
    forall j, k | j in Requests(s, id) && k in Requests(s, id) && j != k
      ensures s.sent[j].to != s.sent[k].to
    {
      assert j < k || k < j;
    }
    hide Inv;
    Injects(Requests(s, id), s.sent, top.links.Keys);
  }

  // ---------------------------------------------------------------- when nothing is in flight

  predicate Quiet(s: State) {
    forall k: nat | k < |s.sent| :: k in s.handled
  }

  predicate Joined(top: Topology, a: nat, b: nat) {
    exists p <- top.links :: p.node == a && top.links[p].node == b
  }

  predicate PassedBetween(top: Topology, q: Search, a: nat, b: nat)
    requires q.order != []
  {
    Forwards(top, q, a) && Joined(top, a, b)
  }

  /** A way from the originator through nodes that pass the request on. */
  ghost predicate Spreads(top: Topology, q: Search, path: seq<nat>)
    requires q.order != []
  {
    && path != [] && path[0] == Origin(q)
    && forall i | 0 < i < |path| :: PassedBetween(top, q, path[i - 1], path[i])
  }

  lemma NeighbourRecords(top: Topology, s: State, id: Id, a: nat, b: nat)
    requires TopologyOk(top) && Inv(top, s) && Quiet(s) && id in s.searches && s.searches[id].order != []
    requires a in s.searches[id].order && Forwards(top, s.searches[id], a) && Joined(top, a, b)
    ensures b in s.searches[id].order
  {
    assert SearchInv(top, s, id);
    SearchEntries(top, s, id);
    var p :| p in top.links && p.node == a && top.links[p].node == b;
    assert p == Port(a, p.session);
    if p.session == Table(s, a)[id].from {
      hide Inv;
      PointerNotZero(top, s, id, a);
    } else {
      assert p.session in SessionsOf(top, a);
      hide Inv, SearchOk, TopologyOk;
      var k := SpreadPacket(top, s, id, p);
      RequestFacts(top, s, k);
      HandledRequest(top, s, k);
      SearchParts(top, s, id);
      RecordedInOrder(top, s, id, b);
    }
  }

  lemma SpreadPacket(top: Topology, s: State, id: Id, p: Port) returns (k: nat)
    requires SearchInv(top, s, id) && s.searches[id].order != [] && p in top.links && p.session in SessionsOf(top, p.node)
    requires p.node in s.searches[id].order && Forwards(top, s.searches[id], p.node) && id in Table(s, p.node)
    requires p.session != Table(s, p.node)[id].from
    ensures k < |s.sent| && s.sent[k] == Packet(top.links[p], PathRequest(id, MAX_TTL, s.searches[id].fileId))
  {
    hide SearchOk, AnsweredOk;
    assert p == Port(p.node, p.session);
    var out := Packet(top.links[p], PathRequest(id, MAX_TTL, s.searches[id].fileId));
    assert out in s.sent;
    k :| 0 <= k < |s.sent| && s.sent[k] == out;
  }

  lemma HandledRequest(top: Topology, s: State, k: nat)
    requires Inv(top, s) && Quiet(s) && k < |s.sent| && s.sent[k].msg.PathRequest?
    ensures s.sent[k].msg.reqId in Table(s, s.sent[k].to.node)
  {
    hide SearchInv, JourneyOk, IdsOk, OncePerPort;
    assert PacketOk(top, s, k);
  }

  lemma RecordedInOrder(top: Topology, s: State, id: Id, n: nat)
    requires id in s.searches && SearchOk(top, s, id) && id in Table(s, n)
    ensures n in s.searches[id].order
  {
  }

  /** Once nothing is in flight, the nodes that have recorded a search are exactly those the originator reaches
      through nodes that do not hold the file. */
  lemma FloodIsComplete(top: Topology, run: seq<State>, id: Id, n: nat)
    requires IsRun(top, run) && Quiet(Now(run)) && id in Now(run).searches
    ensures Now(run).searches[id].order != []
    ensures id in Table(Now(run), n) <==>
            exists path :: Spreads(top, Now(run).searches[id], path) && path[|path| - 1] == n
  {
    var s := Now(run);
    var q := s.searches[id];
    RunKeeps(top, run);
    RunTopology(top, run);
    hide Wired;
    assert SearchInv(top, s, id);
    hide Inv, PointsBack, Spreads;
    if id in Table(s, n) {
      SpreadsTo(top, s, id, n);
    }
    forall path | Spreads(top, q, path) && path[|path| - 1] == n
      ensures id in Table(s, n)
    {
      SpreadsRecord(top, s, id, path);
    }
  }

  lemma SpreadsInit(top: Topology, q: Search, path: seq<nat>)
    requires q.order != [] && Spreads(top, q, path) && |path| > 1
    ensures Spreads(top, q, path[..|path| - 1])
    ensures Forwards(top, q, path[|path| - 2]) && Joined(top, path[|path| - 2], path[|path| - 1])
  {
    hide Joined, Forwards;
    var init := path[..|path| - 1];
    forall i | 0 < i < |init|
      ensures PassedBetween(top, q, init[i - 1], init[i])
    {
      assert PassedBetween(top, q, path[i - 1], path[i]);
    }
    assert PassedBetween(top, q, path[|path| - 2], path[|path| - 1]);
  }

  lemma {:induction false} SpreadsRecord(top: Topology, s: State, id: Id, path: seq<nat>)
    requires TopologyOk(top) && Inv(top, s) && Quiet(s) && SearchInv(top, s, id) && s.searches[id].order != []
    requires Spreads(top, s.searches[id], path)
    ensures path[|path| - 1] in s.searches[id].order
  {
    SearchParts(top, s, id);
    SearchEntries(top, s, id);
    if |path| > 1 {
      SpreadsInit(top, s.searches[id], path);
      hide *;
      SpreadsRecord(top, s, id, path[..|path| - 1]);
      NeighbourRecords(top, s, id, path[|path| - 2], path[|path| - 1]);
    }
  }

  lemma {:induction false} SpreadsTo(top: Topology, s: State, id: Id, n: nat)
    requires TopologyOk(top) && id in s.searches && SearchOk(top, s, id) && n in s.searches[id].order
    ensures exists path :: Spreads(top, s.searches[id], path) && path[|path| - 1] == n
    decreases Pos(s.searches[id].order, n)
  {
    hide SessionsOf, StartSessions, Distinct;
    var q := s.searches[id];
    if n == Origin(q) {
      assert Spreads(top, q, [n]);
    } else {
      assert PointsBack(top, s, id, n);
      PointsAt(top, s, id, n);
      var back := BackPort(s, n, id);
      var parent := top.links[back].node;
      SpreadsTo(top, s, id, parent);
      var path :| Spreads(top, q, path) && path[|path| - 1] == parent;
      LinkedBack(top, back);
      assert Joined(top, parent, n) by { assert top.links[top.links[back]].node == n; }
      assert Spreads(top, q, path + [n]);
    }
  }

  /** The hop count of a request never changes: every request packet of every run carries the count its search began
      with. */
  lemma HopCountStays(top: Topology, run: seq<State>)
    requires IsRun(top, run)
    ensures forall p <- Now(run).sent | p.msg.PathRequest? :: p.msg.ttl == 7
  {
    var s := Now(run);
    RunKeeps(top, run);
    hide IsRun, SearchInv, JourneyOk;
    forall p <- s.sent | p.msg.PathRequest?
      ensures p.msg.ttl == 7
    {
      var k :| 0 <= k < |s.sent| && s.sent[k] == p;
      assert PacketOk(top, s, k);
    }
  }

  /** Once nothing is in flight, every holder that recorded a search from elsewhere has answered it: the
      originator has been told to fetch the file from it, and it has been told to serve the originator. */
  lemma HoldersAreFound(top: Topology, run: seq<State>, id: Id, n: nat)
    requires IsRun(top, run) && Quiet(Now(run)) && id in Now(run).searches && id in Table(Now(run), n)
    requires (n, Now(run).searches[id].fileId) in top.holds && Table(Now(run), n)[id].from != 0
    ensures Now(run).searches[id].order != []
    ensures var q := Now(run).searches[id];
            && (Origin(q), Fetch(n, q.fileId)) in Now(run).events
            && (n, Serve(Origin(q), q.fileId)) in Now(run).events
  {
    var s := Now(run);
    var q := s.searches[id];
    RunKeeps(top, run);
    RunTopology(top, run);
    hide Wired;
    assert SearchInv(top, s, id);
    hide PacketOk, OncePerPort, IdsOk, PointsBack, JourneyOk;
    assert n in q.order && !Forwards(top, q, n);
    assert HasAnswered(s, id, n);
    hide SearchInv;
    var r :| r in s.journeys && s.journeys[r].reqId == id && s.journeys[r].trail != [] && s.journeys[r].trail[0] == n;
    assert JourneyOk(top, s, r);
    hide Inv;
    QuietDone(top, s, r);
  }

  /** Once nothing is in flight, a response is done. */
  lemma QuietDone(top: Topology, s: State, r: Id)
    requires r in s.journeys && JourneyOk(top, s, r) && Quiet(s)
    ensures s.journeys[r].reqId in s.searches && s.searches[s.journeys[r].reqId].order != []
    ensures var j, q := s.journeys[r], s.searches[s.journeys[r].reqId];
            && j.trail != [] && (Origin(q), Fetch(j.trail[0], q.fileId)) in s.events
            && (j.trail[0], Serve(Origin(q), q.fileId)) in s.events
  {
    hide TrailStep, PointsBack, Table;
    assert s.journeys[r].stage.Done?;
  }

  // ---------------------------------------------------------------- nothing is found that is not there

  /** Node `a` began a search for the file, and node `b` holds it. */
  ghost predicate Found(top: Topology, s: State, fileId: Id, a: nat, b: nat) {
    && (b, fileId) in top.holds
    && exists id :: id in s.searches && s.searches[id].order != [] && Origin(s.searches[id]) == a &&
                    s.searches[id].fileId == fileId
  }

  ghost predicate EventOk(top: Topology, s: State, e: (nat, Event)) {
    match e.1
    case Fetch(remote, fileId) => Found(top, s, fileId, e.0, remote)
    case Serve(remote, fileId) => Found(top, s, fileId, remote, e.0)
  }

  lemma FoundKeeps(top: Topology, s: State, s': State, fileId: Id, a: nat, b: nat)
    requires Grows(s, s') && Found(top, s, fileId, a, b)
    ensures Found(top, s', fileId, a, b)
  {
    hide Table;
    var id :| id in s.searches && s.searches[id].order != [] && Origin(s.searches[id]) == a &&
              s.searches[id].fileId == fileId;
    assert s'.searches[id].order[0] == s.searches[id].order[0];
  }

  lemma StepGrows(top: Topology, s: State, s': State)
    requires TopologyOk(top) && Inv(top, s) && Step(top, s, s')
    ensures Grows(s, s')
  {
    InvParts(top, s);
    hide Inv, TopologyOk, Starts, Delivers, Grows, IdsOk;
    if n: nat, reqId: Id, fileId: Id :| Starts(top, s, s', n, reqId, fileId) {
      StartGrows(top, s, s', n, reqId, fileId);
    } else {
      var k: nat, newId: Id :| Delivers(top, s, s', k, newId);
      DeliverGrows(top, s, s', k, newId);
    }
  }

  lemma DeliverGrows(top: Topology, s: State, s': State, k: nat, newId: Id)
    requires TopologyOk(top) && Inv(top, s) && IdsOk(s) && Delivers(top, s, s', k, newId)
    ensures Grows(s, s')
  {
    var p := s.sent[k];
    assert Pending(s, k);
    hide Inv, TopologyOk, Grows, IdsOk, Handle, Searches, Journeys, Packets, Table, RequestOk, SearchInv, Arriving, Returning;
    match p.msg
    case PathRequest(id, _, fileId) =>
      RequestFacts(top, s, k);
      if id in Table(s, p.to.node) {
        AgainGrows(top, s, s', k, newId);
      } else if (p.to.node, fileId) in top.holds {
        AnswerForm(top, s, s', k, newId);
      } else {
        PassOnForm(top, s, s', k, newId);
      }
    case PathResponse(r, _, _) =>
      ArrivingFacts(top, s, k);
      BackForm(top, s, s', k, newId, r);
      OthersStay(top, s, s', k, r);
    case PathAddress(r, _) =>
      ReturningFacts(top, s, k);
      ForthForm(top, s, s', k, newId, r);
      ForthStays(top, s, s', k, r);
  }

  ghost predicate OpensFound(top: Topology, s: State, k: nat, newId: Id)
    requires k < |s.sent|
  {
    forall ev <- Handle(top, s, s.sent[k], newId).events :: EventOk(top, s, (s.sent[k].to.node, ev))
  }

  /** What a handler opens is for a file that was searched for and is held. */
  lemma OpenedIsFound(top: Topology, s: State, k: nat, newId: Id)
    requires TopologyOk(top) && Inv(top, s) && Pending(s, k)
    ensures OpensFound(top, s, k, newId)
  {
    match s.sent[k].msg
    case PathRequest(_, _, _) => hide Inv, TopologyOk;
    case PathResponse(r, _, _) =>
      hide *;
      InvParts(top, s);
      ArrivingFacts(top, s, k);
      ArrivingHolder(top, s, k, r);
      FetchIsFound(top, s, k, newId, r);
    case PathAddress(r, _) =>
      hide *;
      ReturningFacts(top, s, k);
      ReturningHolder(top, s, k, r);
      ServeIsFound(top, s, k, newId, r);
  }

  lemma ArrivingHolder(top: Topology, s: State, k: nat, r: Id)
    requires Inv(top, s) && Arriving(top, s, k, r)
    ensures r in s.journeys && s.journeys[r].reqId in s.searches && s.journeys[r].trail != []
    ensures (s.journeys[r].trail[0], s.searches[s.journeys[r].reqId].fileId) in top.holds && r != s.journeys[r].reqId
  {
    JourneyAt(top, s, r);
    hide JourneyOk, SearchInv, PacketOk, Table;
    JourneyHolder(top, s, r);
  }

  lemma FetchIsFound(top: Topology, s: State, k: nat, newId: Id, r: Id)
    requires TopologyOk(top) && Arriving(top, s, k, r) && r != s.journeys[r].reqId
    requires (s.journeys[r].trail[0], s.searches[s.journeys[r].reqId].fileId) in top.holds
    ensures OpensFound(top, s, k, newId)
  {
    BackSends(top, s, k, r, newId);
    hide Table, Handle, TopologyOk;
  }

  lemma ReturningHolder(top: Topology, s: State, k: nat, r: Id)
    requires Inv(top, s) && Returning(top, s, k, r)
    ensures r in s.journeys && s.journeys[r].reqId in s.searches && s.journeys[r].trail != []
    ensures (s.journeys[r].trail[0], s.searches[s.journeys[r].reqId].fileId) in top.holds
  {
    JourneyAt(top, s, r);
    hide JourneyOk, SearchInv, PacketOk, Table;
    JourneyHolder(top, s, r);
  }

  lemma ServeIsFound(top: Topology, s: State, k: nat, newId: Id, r: Id)
    requires TopologyOk(top) && Returning(top, s, k, r)
    requires s.journeys[r].trail != []
    requires (s.journeys[r].trail[0], s.searches[s.journeys[r].reqId].fileId) in top.holds
    ensures OpensFound(top, s, k, newId)
  {
    ForthHolder(top, s, k, r);
    ForthSends(top, s, k, r, newId);
    hide Table, Handle, TopologyOk;
  }

  lemma JourneyHolder(top: Topology, s: State, r: Id)
    requires r in s.journeys && JourneyOk(top, s, r)
    ensures var j := s.journeys[r];
            && j.reqId in s.searches && j.trail != [] && s.searches[j.reqId].order != []
            && (j.trail[0], s.searches[j.reqId].fileId) in top.holds
  {
    hide PointsBack, TrailStep, Table, StageOk;
  }

  lemma ForthHolder(top: Topology, s: State, k: nat, r: Id)
    requires Returning(top, s, k, r)
    ensures s.journeys[r].stage.left == 1 ==> s.sent[k].to.node == s.journeys[r].trail[0]
  {
    hide Table;
  }

  lemma StepEvents(top: Topology, s: State, s': State)
    requires TopologyOk(top) && Inv(top, s) && Step(top, s, s')
    requires forall e <- s.events :: EventOk(top, s, e)
    ensures forall e <- s'.events :: EventOk(top, s', e)
  {
    StepGrows(top, s, s');
    hide Inv, TopologyOk, Grows, Found, Handle, Packets, Searches, Journeys;
    forall e <- s'.events
      ensures EventOk(top, s', e)
    {
      if e in s.events {
        EventKeeps(top, s, s', e);
      } else {
        NewEvent(top, s, s', e);
        EventKeeps(top, s, s', e);
      }
    }
  }

  lemma NewEvent(top: Topology, s: State, s': State, e: (nat, Event))
    requires TopologyOk(top) && Inv(top, s) && Step(top, s, s') && e in s'.events && e !in s.events
    ensures EventOk(top, s, e)
  {
    hide Inv, TopologyOk, Handle, Packets, Searches, Journeys, EventOk;
    if k: nat, newId: Id :| Delivers(top, s, s', k, newId) {
      var o := Handle(top, s, s.sent[k], newId);
      assert e in Tag(s.sent[k].to.node, o.events);
      OpenedIsFound(top, s, k, newId);
    }
  }

  lemma EventKeeps(top: Topology, s: State, s': State, e: (nat, Event))
    requires Grows(s, s') && EventOk(top, s, e)
    ensures EventOk(top, s', e)
  {
    hide Grows, Found;
    match e.1
    case Fetch(remote, fileId) => FoundKeeps(top, s, s', fileId, e.0, remote);
    case Serve(remote, fileId) => FoundKeeps(top, s, s', fileId, remote, e.0);
  }

  /** In every run, a node is told to fetch a file only from a node that holds it, and only for a search of its own;
      and a node is told to serve a file only when it holds it, and only to a node that searched for it. */
  lemma {:induction false} FindsAreTrue(top: Topology, run: seq<State>)
    requires IsRun(top, run)
    ensures forall e <- Now(run).events :: EventOk(top, Now(run), e)
  {
    if |run| > 1 {
      InitRun(top, run);
      hide *;
      FindsAreTrue(top, run[..|run| - 1]);
      RunKeeps(top, run[..|run| - 1]);
      RunTopology(top, run);
      StepEvents(top, Now(run[..|run| - 1]), Now(run));
    }
  }
}
