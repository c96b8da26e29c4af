/** A search comes to rest: every packet in flight can be handled, and handling packets cannot go on for ever. */
module PathProgress {
  import opened Sequences
  import opened PathSearch
  import opened PathNetwork
  import opened PathTheorems

  // ---------------------------------------------------------------- sums over ids

  ghost function Sum(weights: map<Id, nat>): nat
    decreases |weights.Keys|
  {
    if weights == map[] then 0
    else
      var id :| id in weights;
      weights[id] + Sum(weights - {id})
  }

  lemma {:induction false} SumSplit(weights: map<Id, nat>, id: Id)
    requires id in weights
    ensures Sum(weights) == weights[id] + Sum(weights - {id})
    decreases |weights.Keys|
  {
    var first :| first in weights && Sum(weights) == weights[first] + Sum(weights - {first});
    if first != id {
      SumSplit(weights - {first}, id);
      SumSplit(weights - {id}, first);
      assert weights - {first} - {id} == weights - {id} - {first};
    }
  }

  lemma SumLess(weights: map<Id, nat>, weights': map<Id, nat>, id: Id)
    requires id in weights && id in weights' && weights' == weights[id := weights'[id]]
    ensures Sum(weights') + weights[id] == Sum(weights) + weights'[id]
  {
    SumSplit(weights, id);
    SumSplit(weights', id);
    assert weights - {id} == weights' - {id};
  }

  // ---------------------------------------------------------------- what is still to do

  /** More than the nodes that can have recorded a search. */
  function Bound(top: Topology): nat {
    |top.links.Keys| + 2
  }

  function Minus(a: nat, b: nat): nat {
    if a < b then 0 else a - b
  }

  function ToRecord(top: Topology, q: Search): nat {
    Minus(Bound(top), |q.order|)
  }

  /** How many steps a response has before it: back to the originator, then forth along its trail. */
  function ToGo(top: Topology, s: State, r: Id): nat
    requires r in s.journeys
  {
    var j := s.journeys[r];
    match j.stage
    case Back(_) =>
      if j.reqId in s.searches && j.trail != [] && j.trail[|j.trail| - 1] in s.searches[j.reqId].order then
        Bound(top) + Pos(s.searches[j.reqId].order, j.trail[|j.trail| - 1])
      else Bound(top)
    case Forth(_, left) => left
    case Done => 0
  }

  datatype Rank = Rank(unrecorded: nat, journeys: nat, packets: nat)

  ghost function RecordWeights(top: Topology, s: State): map<Id, nat> {
    map id <- s.searches :: ToRecord(top, s.searches[id])
  }

  ghost function JourneyWeights(top: Topology, s: State): map<Id, nat> {
    map r <- s.journeys :: ToGo(top, s, r)
  }

  ghost function RankOf(top: Topology, s: State): Rank {
    Rank(Sum(RecordWeights(top, s)), Sum(JourneyWeights(top, s)), Minus(|s.sent|, |s.handled|))
  }

  predicate Less(a: Rank, b: Rank) {
    || a.unrecorded < b.unrecorded
    || (a.unrecorded == b.unrecorded && a.journeys < b.journeys)
    || (a.unrecorded == b.unrecorded && a.journeys == b.journeys && a.packets < b.packets)
  }

  // ---------------------------------------------------------------- bounds

  /** Distinct nodes with distinct ports: no more than there are sessions, and the originator. */
  lemma {:induction false} NodesBounded(nodes: seq<nat>, ports: map<nat, Port>, links: set<Port>)
    requires Distinct(nodes)
    requires forall n <- nodes :: n in ports && ports[n] in links && ports[n].node == n
    ensures |nodes| <= |links|
  {
    if nodes != [] {
      var rest, last := nodes[..|nodes| - 1], nodes[|nodes| - 1];
      forall n <- rest
        ensures ports[n] in links - {ports[last]}
      {
        assert n != last;
      }
      NodesBounded(rest, ports, links - {ports[last]});
    }
  }

  lemma OtherPoints(top: Topology, s: State, id: Id, n: nat)
    requires id in s.searches && SearchOk(top, s, id) && n in s.searches[id].order && n != s.searches[id].order[0]
    ensures id in Table(s, n) && BackPort(s, n, id) in top.links
  {
    assert PointsBack(top, s, id, n);
    hide Table;
  }

  lemma OrderParts(top: Topology, s: State, id: Id)
    requires id in s.searches && SearchOk(top, s, id)
    ensures var order := s.searches[id].order;
            order != [] && Distinct(order[1..]) && forall n <- order[1..] :: n in order && n != order[0]
  {
    hide Table, PointsBack;
  }

  lemma OrderBounded(top: Topology, s: State, id: Id)
    requires TopologyOk(top) && id in s.searches && SearchOk(top, s, id)
    ensures |s.searches[id].order| <= |top.links.Keys| + 1
  {
    OrderParts(top, s, id);
    hide SearchOk, PointsBack, TopologyOk, Distinct, Table;
    var others := s.searches[id].order[1..];
    forall n <- others
      ensures id in Table(s, n) && BackPort(s, n, id) in top.links
    {
      OtherPoints(top, s, id, n);
    }
    var ports: map<nat, Port> := map n: nat | n in others :: BackPort(s, n, id);
    NodesBounded(others, ports, top.links.Keys);
  }

  lemma {:induction false} Descent(order: seq<nat>, t: seq<nat>)
    requires Descends(order, t) && t != []
    ensures |t| <= Pos(order, t[0]) + 1
    decreases |t|
  {
    hide Pos;
    if |t| > 1 {
      assert Descends(order, t[1..]) by {
        forall i | 0 < i < |t[1..]|
          ensures Pos(order, t[1..][i]) < Pos(order, t[1..][i - 1])
        {
          assert Pos(order, t[i + 1]) < Pos(order, t[i]);
        }
      }
      Descent(order, t[1..]);
      assert Pos(order, t[1]) < Pos(order, t[0]);
    }
  }

  lemma TrailBounded(top: Topology, s: State, r: Id)
    requires TopologyOk(top) && r in s.journeys && JourneyOk(top, s, r)
    ensures |s.journeys[r].trail| < Bound(top)
  {
    TrailDescends(top, s, r);
    TrailRecorded(top, s, r);
    JourneyEnds(top, s, r);
    OrderBounded(top, s, s.journeys[r].reqId);
    hide JourneyOk, SearchOk;
    Descent(s.searches[s.journeys[r].reqId].order, s.journeys[r].trail);
  }

  // ---------------------------------------------------------------- every delivery counts down

  lemma {:induction false} Subset(handled: set<nat>, n: nat)
    requires forall k <- handled :: k < n
    ensures |handled| <= n
  {
    if n > 0 {
      Subset(handled - {n - 1}, n - 1);
    }
  }

  lemma FewerPackets(s: State, s': State, k: nat)
    requires IdsOk(s) && Pending(s, k) && s'.sent == s.sent && s'.handled == s.handled + {k}
    ensures Minus(|s'.sent|, |s'.handled|) < Minus(|s.sent|, |s.handled|)
  {
    Subset(s.handled + {k}, |s.sent|);
  }

  lemma JoinsCountsDown(top: Topology, s: State, s': State, p: Packet, id: Id)
    requires TopologyOk(top) && id in s.searches && id in s'.searches && SearchOk(top, s', id) && Joins(top, s, s', p, id)
    requires forall i <- s'.searches | i != id :: i in s.searches && s'.searches[i] == s.searches[i]
    requires s'.searches.Keys == s.searches.Keys
    ensures Less(RankOf(top, s'), RankOf(top, s))
  {
    OrderBounded(top, s', id);
    assert |s'.searches[id].order| == |s.searches[id].order| + 1 by { hide SearchOk, TopologyOk, RequestOk; }
    hide *;
    RecordCountsDown(top, s, s', id);
  }

  lemma RecordCountsDown(top: Topology, s: State, s': State, id: Id)
    requires id in s.searches && s'.searches.Keys == s.searches.Keys
    requires forall i <- s'.searches | i != id :: i in s.searches && s'.searches[i] == s.searches[i]
    requires |s.searches[id].order| < |s'.searches[id].order| <= |top.links.Keys| + 1
    ensures Less(RankOf(top, s'), RankOf(top, s))
  {
    var w, w' := RecordWeights(top, s), RecordWeights(top, s');
    assert w' == w[id := w'[id]];
    hide JourneyWeights;
    SumLess(w, w', id);
  }

  lemma SameRecords(top: Topology, s: State, s': State)
    requires s'.searches == s.searches
    ensures RecordWeights(top, s') == RecordWeights(top, s)
  {
  }

  /** A response that moves has less to go. */
  lemma JourneyCountsDown(top: Topology, s: State, s': State, r: Id)
    requires s'.searches == s.searches && r in s.journeys && s'.journeys.Keys == s.journeys.Keys
    requires forall i <- s.journeys | i != r :: s'.journeys[i] == s.journeys[i]
    requires ToGo(top, s', r) < ToGo(top, s, r)
    ensures Less(RankOf(top, s'), RankOf(top, s))
  {
    SameRecords(top, s, s');
    var w, w' := JourneyWeights(top, s), JourneyWeights(top, s');
    hide RecordWeights;
    assert w' == w[r := w'[r]];
    SumLess(w, w', r);
  }

  lemma BackCountsDown(top: Topology, s: State, s': State, k: nat, r: Id)
    requires TopologyOk(top) && Inv(top, s) && BackMoved(top, s, s', k, r)
    ensures ToGo(top, s', r) < ToGo(top, s, r)
  {
    JourneyAt(top, s, r);
    TrailBounded(top, s, r);
    TrailRecorded(top, s, r);
    BackEnds(top, s, s', k, r);
    hide *;
    PointsFrom(top, s, s.journeys[r].reqId, s.journeys[r].trail[|s.journeys[r].trail| - 1]);
    BackIsNearer(top, s, s', k, r);
  }

  lemma BackEnds(top: Topology, s: State, s': State, k: nat, r: Id)
    requires BackMoved(top, s, s', k, r)
    ensures var j, n := s.journeys[r], s.sent[k].to.node;
            && j.trail != [] && j.reqId in s.searches && j.reqId in Table(s, n)
            && j.reqId in Table(s, j.trail[|j.trail| - 1])
            && j.stage.Back? && BackPort(s, j.trail[|j.trail| - 1], j.reqId) in top.links
            && top.links[BackPort(s, j.trail[|j.trail| - 1], j.reqId)].node == n
            && s'.searches == s.searches && r in s'.journeys
            && s'.journeys[r] == Journey(j.reqId, j.trail + [n], NextStage(s, r, n))
  {
    hide SameFor, Grows, Table;
  }

  lemma BackIsNearer(top: Topology, s: State, s': State, k: nat, r: Id)
    requires k < |s.sent| && r in s.journeys && r in s'.journeys && s'.searches == s.searches
    requires var j, n := s.journeys[r], s.sent[k].to.node;
             && j.trail != [] && |j.trail| < Bound(top) && j.reqId in s.searches && j.reqId in Table(s, n) && j.stage.Back?
             && j.trail[|j.trail| - 1] in s.searches[j.reqId].order && n in s.searches[j.reqId].order
             && Pos(s.searches[j.reqId].order, n) < Pos(s.searches[j.reqId].order, j.trail[|j.trail| - 1])
             && s'.journeys[r] == Journey(j.reqId, j.trail + [n], NextStage(s, r, n))
    ensures ToGo(top, s', r) < ToGo(top, s, r)
  {
    hide Pos, Table;
    var t := s.journeys[r].trail;
    assert (t + [s.sent[k].to.node])[|t|] == s.sent[k].to.node;
  }

  lemma PointsFrom(top: Topology, s: State, id: Id, n: nat)
    requires TopologyOk(top) && id in s.searches && SearchOk(top, s, id) && id in Table(s, n)
    requires BackPort(s, n, id) in top.links
    ensures n in s.searches[id].order && top.links[BackPort(s, n, id)].node in s.searches[id].order
    ensures Pos(s.searches[id].order, top.links[BackPort(s, n, id)].node) < Pos(s.searches[id].order, n)
  {
    hide SearchOk, PointsBack;
    PointerNotZero(top, s, id, n);
    PointsAt(top, s, id, n);
  }

  lemma ForthCountsDown(top: Topology, s: State, s': State, k: nat, r: Id)
    requires ForthMoved(top, s, s', k, r)
    ensures ToGo(top, s', r) < ToGo(top, s, r)
  {
    hide Table, SameFor, Grows;
  }

  lemma DeliveryCountsDown(top: Topology, s: State, s': State, k: nat, newId: Id)
    requires TopologyOk(top) && Inv(top, s) && Delivers(top, s, s', k, newId)
    ensures Less(RankOf(top, s'), RankOf(top, s))
  {
    DeliverKeeps(top, s, s', k, newId);
    InvParts(top, s);
    var p := s.sent[k];
    hide *;
    match p.msg
    case PathRequest(_, _, _) => RequestCountsDown(top, s, s', k, newId);
    case PathResponse(_, _, _) => ResponseCountsDown(top, s, s', k, newId);
    case PathAddress(_, _) => AddressCountsDown(top, s, s', k, newId);
  }

  lemma RequestCountsDown(top: Topology, s: State, s': State, k: nat, newId: Id)
    requires TopologyOk(top) && Inv(top, s) && Inv(top, s') && IdsOk(s) && Delivers(top, s, s', k, newId)
    requires s.sent[k].msg.PathRequest?
    ensures Less(RankOf(top, s'), RankOf(top, s))
  {
    var p := s.sent[k];
    var id := p.msg.reqId;
    RequestFacts(top, s, k);
    SearchParts(top, s, id);
    assert Pending(s, k);
    hide Inv, TopologyOk, Handle, IdsOk, SearchOk, RequestOk, SearchInv, SpreadOk, AnsweredOk, Joins, RankOf, Less, SameFor,
         Grows, Table, Packets, Searches, Journeys;
    if id in Table(s, p.to.node) {
      AgainGrows(top, s, s', k, newId);
      AgainCountsDown(top, s, s', k);
    } else if (p.to.node, p.msg.fileId) in top.holds {
      AnswerForm(top, s, s', k, newId);
      SearchOkNow(top, s', id);
      GrowsKeys(s, s', id);
      hide Delivers;
      JoinsCountsDown(top, s, s', p, id);
    } else {
      PassOnForm(top, s, s', k, newId);
      SearchOkNow(top, s', id);
      GrowsKeys(s, s', id);
      hide Delivers;
      JoinsCountsDown(top, s, s', p, id);
    }
  }

  lemma SameJourneys(top: Topology, s: State, s': State)
    requires s'.searches == s.searches && s'.journeys == s.journeys
    ensures JourneyWeights(top, s') == JourneyWeights(top, s)
  {
  }

  lemma AgainCountsDown(top: Topology, s: State, s': State, k: nat)
    requires IdsOk(s) && Pending(s, k) && s'.sent == s.sent && s'.handled == s.handled + {k}
    requires s'.searches == s.searches && s'.journeys == s.journeys
    ensures Less(RankOf(top, s'), RankOf(top, s))
  {
    FewerPackets(s, s', k);
    SameRecords(top, s, s');
    assert JourneyWeights(top, s') == JourneyWeights(top, s) by { SameJourneys(top, s, s'); }
    hide RecordWeights, JourneyWeights, Sum, Minus, IdsOk;
  }

  lemma GrowsKeys(s: State, s': State, id: Id)
    requires Grows(s, s') && id in s.searches && forall i <- s'.searches | i != id :: i in s.searches
    ensures s.searches.Keys == s'.searches.Keys
  {
    hide Table;
  }

  lemma SearchOkNow(top: Topology, s: State, id: Id)
    requires Inv(top, s) && id in s.searches
    ensures SearchOk(top, s, id)
  {
    assert SearchInv(top, s, id);
  }

  lemma ResponseCountsDown(top: Topology, s: State, s': State, k: nat, newId: Id)
    requires TopologyOk(top) && Inv(top, s) && IdsOk(s) && Delivers(top, s, s', k, newId)
    requires s.sent[k].msg.PathResponse?
    ensures Less(RankOf(top, s'), RankOf(top, s))
  {
    var r := s.sent[k].msg.respId;
    assert Pending(s, k);
    hide *;
    ArrivingFacts(top, s, k);
    BackForm(top, s, s', k, newId, r);
    OthersStay(top, s, s', k, r);
    BackCountsDown(top, s, s', k, r);
    BackKeys(top, s, s', k, r);
    JourneyCountsDown(top, s, s', r);
  }

  lemma BackKeys(top: Topology, s: State, s': State, k: nat, r: Id)
    requires BackMoved(top, s, s', k, r)
    ensures s'.journeys.Keys == s.journeys.Keys
  {
    hide Table, SameFor, Grows;
  }

  lemma AddressCountsDown(top: Topology, s: State, s': State, k: nat, newId: Id)
    requires TopologyOk(top) && Inv(top, s) && IdsOk(s) && Delivers(top, s, s', k, newId)
    requires s.sent[k].msg.PathAddress?
    ensures Less(RankOf(top, s'), RankOf(top, s))
  {
    var r := s.sent[k].msg.respId;
    assert Pending(s, k);
    hide *;
    ReturningFacts(top, s, k);
    ForthForm(top, s, s', k, newId, r);
    ForthStays(top, s, s', k, r);
    ForthCountsDown(top, s, s', k, r);
    ForthKeys(top, s, s', k, r);
    JourneyCountsDown(top, s, s', r);
  }

  lemma ForthKeys(top: Topology, s: State, s': State, k: nat, r: Id)
    requires ForthMoved(top, s, s', k, r)
    ensures s'.journeys.Keys == s.journeys.Keys
  {
    hide Table, SameFor, Grows;
  }

  // ---------------------------------------------------------------- a delivery is always possible

  lemma {:induction false} LongerThanAll(ids: set<Id>) returns (n: nat)
    ensures forall id <- ids :: |id| < n
    decreases |ids|
  {
    n := 0;
    if ids != {} {
      var id :| id in ids;
      n := LongerThanAll(ids - {id});
      n := if |id| < n then n else |id| + 1;
    }
  }

  lemma FreshId(s: State) returns (id: Id)
    ensures !Used(s, id)
  {
    var n := LongerThanAll(s.searches.Keys + s.journeys.Keys);
    id := seq(n, _ => 'a');
    assert |id| == n;
  }

  lemma CanPass(top: Topology, s: State, k: nat, newId: Id)
    requires TopologyOk(top) && Pending(s, k) && s.sent[k].msg.PathRequest? && s.sent[k].to in top.links
    ensures Sendable(top, s.sent[k].to.node, Handle(top, s, s.sent[k], newId))
  {
    var p := s.sent[k];
    if p.msg.reqId !in Table(s, p.to.node) && (p.to.node, p.msg.fileId) !in top.holds {
      BroadcastPackets(top, p.to.node, p.to.session, p.msg, Handle(top, s, p, newId));
    } else {
      hide TopologyOk, Table;
      assert Port(p.to.node, p.to.session) == p.to;
    }
  }

  lemma CanReturn(top: Topology, s: State, k: nat, r: Id, newId: Id)
    requires TopologyOk(top) && Arriving(top, s, k, r) && r != s.journeys[r].reqId
    ensures Sendable(top, s.sent[k].to.node, Handle(top, s, s.sent[k], newId))
  {
    BackSends(top, s, k, r, newId);
    hide *;
  }

  lemma CanLead(top: Topology, s: State, k: nat, r: Id, newId: Id)
    requires TopologyOk(top) && Returning(top, s, k, r)
    ensures Sendable(top, s.sent[k].to.node, Handle(top, s, s.sent[k], newId))
  {
    ForthSends(top, s, k, r, newId);
    hide *;
  }

  lemma CanSend(top: Topology, s: State, k: nat, newId: Id)
    requires TopologyOk(top) && Inv(top, s) && Pending(s, k) && !Used(s, newId)
    ensures Sendable(top, s.sent[k].to.node, Handle(top, s, s.sent[k], newId))
  {
    match s.sent[k].msg
    case PathRequest(_, _, _) =>
      RequestFacts(top, s, k);
      hide *;
      CanPass(top, s, k, newId);
    case PathResponse(r, _, _) =>
      hide *;
      InvParts(top, s);
      ArrivingFacts(top, s, k);
      ArrivedKnown(top, s, k, r);
      CanReturn(top, s, k, r, newId);
    case PathAddress(r, _) =>
      hide *;
      ReturningFacts(top, s, k);
      CanLead(top, s, k, r, newId);
  }

  lemma ArrivedKnown(top: Topology, s: State, k: nat, r: Id)
    requires IdsOk(s) && Arriving(top, s, k, r)
    ensures r != s.journeys[r].reqId
  {
    hide Table;
  }

  lemma DeliveryPossible(top: Topology, s: State, k: nat) returns (s': State, newId: Id)
    requires TopologyOk(top) && Inv(top, s) && Pending(s, k)
    ensures Delivers(top, s, s', k, newId)
  {
    newId := FreshId(s);
    CanSend(top, s, k, newId);
    hide Inv, TopologyOk, Handle, Used;
    var p := s.sent[k];
    s' := Apply(top, s.(handled := s.handled + {k}), p.to.node, Handle(top, s, p, newId))
          .(searches := Searches(s, p), journeys := Journeys(top, s, p, newId));
  }

  // ---------------------------------------------------------------- coming to rest

  /** From one state to another by deliveries only. */
  ghost predicate OnlyDeliveries(top: Topology, states: seq<State>) {
    && states != []
    && forall i | 0 < i < |states| :: Delivered(top, states[i - 1], states[i])
  }

  ghost predicate Delivered(top: Topology, s: State, s': State) {
    exists k: nat, newId: Id :: Delivers(top, s, s', k, newId)
  }

  /** No run of deliveries goes on for ever: the rank falls with each. */
  lemma EveryDeliveryCountsDown(top: Topology, run: seq<State>, s': State)
    requires IsRun(top, run) && Delivered(top, Now(run), s')
    ensures Less(RankOf(top, s'), RankOf(top, Now(run)))
  {
    RunKeeps(top, run);
    var k: nat, newId: Id :| Delivers(top, Now(run), s', k, newId);
    RunTopology(top, run);
    hide *;
    DeliveryCountsDown(top, Now(run), s', k, newId);
  }

  lemma RunExtends(top: Topology, run: seq<State>, s': State)
    requires IsRun(top, run) && Delivered(top, Now(run), s')
    ensures IsRun(top, run + [s'])
  {
    var k: nat, newId: Id :| Delivers(top, Now(run), s', k, newId);
    hide Delivers, Wired;
    assert Step(top, Now(run), s');
    var more := run + [s'];
    forall i | 0 < i < |more|
      ensures Step(top, more[i - 1], more[i])
    {
      if i < |run| {
        assert Step(top, run[i - 1], run[i]);
      }
    }
  }

  lemma DeliversNext(top: Topology, run: seq<State>) returns (s': State)
    requires IsRun(top, run) && !Quiet(Now(run))
    ensures Delivered(top, Now(run), s')
  {
    RunKeeps(top, run);
    RunTopology(top, run);
    var k: nat :| k < |Now(run).sent| && k !in Now(run).handled;
    hide Inv, TopologyOk, IsRun, Delivers;
    var newId;
    s', newId := DeliveryPossible(top, Now(run), k);
  }

  /** Every run can be continued by deliveries alone to a state where nothing is in flight. */
  lemma {:induction false} SearchesComeToRest(top: Topology, run: seq<State>) returns (longer: seq<State>)
    requires IsRun(top, run)
    ensures IsRun(top, longer) && run <= longer && Quiet(Now(longer))
    ensures OnlyDeliveries(top, longer[|run| - 1..])
    decreases RankOf(top, Now(run)).unrecorded, RankOf(top, Now(run)).journeys, RankOf(top, Now(run)).packets
  {
    if Quiet(Now(run)) {
      longer := run;
      return;
    }
    hide IsRun, Delivered, RankOf, Quiet;
    var s' := DeliversNext(top, run);
    EveryDeliveryCountsDown(top, run, s');
    RunExtends(top, run, s');
    longer := SearchesComeToRest(top, run + [s']);
    ghost var tail := longer[|run| - 1..];
    assert tail[0] == Now(run) && tail[1..] == longer[|run|..];
    forall i | 0 < i < |tail|
      ensures Delivered(top, tail[i - 1], tail[i])
    {
      if i == 1 {
        assert tail[1] == s';
      } else {
        assert longer[|run|..][i - 1] == tail[i] && longer[|run|..][i - 2] == tail[i - 1];
        assert Delivered(top, longer[|run|..][i - 2], longer[|run|..][i - 1]);
      }
    }
  }

  // ---------------------------------------------------------------- any number of hops

  /** Nodes 0 to `n` in a line: each has session 1 to the next and session 2 to the one before; none has a file. */
  function Line(n: nat): Topology {
    Topology(Links(n), map i: nat | i <= n :: LineSessions(i, n), {})
  }

  function Onward(n: nat): map<Port, Port> {
    map i: nat | i < n :: Port(i, 1) := Port(i + 1, 2)
  }

  function Backward(n: nat): map<Port, Port> {
    map i: nat | 0 < i <= n :: Port(i, 2) := Port(i - 1, 1)
  }

  function Links(n: nat): map<Port, Port> {
    Onward(n) + Backward(n)
  }

  /** A session other nodes can be reached by. */
  function Open(id: nat): SessionInfo {
    SessionInfo(id, true, true, true)
  }

  function LineSessions(i: nat, n: nat): seq<SessionInfo> {
    (if i < n then [Open(1)] else []) + (if i > 0 then [Open(2)] else [])
  }

  lemma OnwardAt(n: nat, p: Port)
    ensures p in Onward(n) <==> p.session == 1 && p.node < n
    ensures p in Onward(n) ==> Onward(n)[p] == Port(p.node + 1, 2)
  {
    if p.session == 1 && p.node < n {
      var i := p.node;
      assert Port(i, 1) == p;
    }
  }

  lemma BackwardAt(n: nat, p: Port)
    ensures p in Backward(n) <==> p.session == 2 && 0 < p.node <= n
    ensures p in Backward(n) ==> Backward(n)[p] == Port(p.node - 1, 1)
  {
    if p.session == 2 && 0 < p.node <= n {
      var i := p.node;
      assert Port(i, 2) == p;
    }
  }

  lemma LinksAt(n: nat, p: Port)
    ensures p in Links(n) <==> (p.session == 1 && p.node < n) || (p.session == 2 && 0 < p.node <= n)
    ensures p in Links(n) && p.session == 1 ==> Links(n)[p] == Port(p.node + 1, 2)
    ensures p in Links(n) && p.session == 2 ==> Links(n)[p] == Port(p.node - 1, 1)
  {
    OnwardAt(n, p);
    BackwardAt(n, p);
    hide Onward, Backward;
  }

  lemma InfosAt(n: nat, i: nat)
    ensures forall session :: Port(i, session) in Links(n) <==> exists k :: 0 <= k < |Infos(Line(n), i)| && Infos(Line(n), i)[k].id == session
    ensures forall k | 0 <= k < |Infos(Line(n), i)| :: Infos(Line(n), i)[k] == Open(Infos(Line(n), i)[k].id)
    ensures forall j, k | 0 <= j < k < |Infos(Line(n), i)| :: Infos(Line(n), i)[j].id != Infos(Line(n), i)[k].id
  {
    var infos := if i <= n then LineSessions(i, n) else [];
    assert Infos(Line(n), i) == infos;
    hide Infos, Line, Links;
    forall session
      ensures Port(i, session) in Links(n) <==> exists k :: 0 <= k < |infos| && infos[k].id == session
    {
      LinksAt(n, Port(i, session));
      if Port(i, session) in Links(n) {
        assert infos[if session == 1 then 0 else |infos| - 1].id == session;
      }
    }
  }

  lemma LineLinks(n: nat)
    ensures forall p <- Line(n).links ::
              && p.session != 0 && Line(n).links[p] in Line(n).links
              && Line(n).links[Line(n).links[p]] == p
  {
    var top := Line(n);
    forall p <- top.links
      ensures p.session != 0 && top.links[p] in top.links && top.links[top.links[p]] == p
    {
      assert top.links == Links(n);
      LinksAt(n, p);
      LinksAt(n, top.links[p]);
      hide Links, Line;
    }
  }

  lemma LineIsOpen(n: nat, i: nat, k: nat)
    requires k < |Infos(Line(n), i)|
    ensures var info := Infos(Line(n), i)[k]; info.isActive && info.isDefault && info.isConnected
  {
    InfosAt(n, i);
    hide Infos, Line;
  }

  lemma LinesJoin(n: nat, i: nat, session: nat)
    ensures Port(i, session) in Line(n).links <==>
            exists k :: 0 <= k < |Infos(Line(n), i)| && Infos(Line(n), i)[k].id == session &&
                        Infos(Line(n), i)[k].isActive && Infos(Line(n), i)[k].isDefault
  {
    assert Line(n).links == Links(n);
    InfosAt(n, i);
    hide Infos, Line, Links;
    forall k | 0 <= k < |Infos(Line(n), i)|
      ensures Infos(Line(n), i)[k].isActive && Infos(Line(n), i)[k].isDefault
    {
      LineIsOpen(n, i, k);
    }
  }

  lemma LineOk(n: nat)
    ensures Wired(Line(n))
  {
    LineLinks(n);
    hide Line, Infos, Links;
    forall i: nat, session: nat
      ensures Port(i, session) in Line(n).links <==>
              exists k :: 0 <= k < |Infos(Line(n), i)| && Infos(Line(n), i)[k].id == session &&
                          Infos(Line(n), i)[k].isActive && Infos(Line(n), i)[k].isDefault
    {
      LinesJoin(n, i, session);
    }
    forall i: nat, k | 0 <= k < |Infos(Line(n), i)|
      ensures Infos(Line(n), i)[k].isConnected
    {
      LineIsOpen(n, i, k);
    }
    forall i: nat, j, k | 0 <= j < k < |Infos(Line(n), i)|
      ensures Infos(Line(n), i)[j].id != Infos(Line(n), i)[k].id
    {
      InfosAt(n, i);
    }
  }

  lemma LineJoins(n: nat, a: nat, b: nat)
    requires Joined(Line(n), a, b)
    ensures b <= a + 1
  {
    var p :| p in Line(n).links && p.node == a && Line(n).links[p].node == b;
    LinksAt(n, p);
  }

  /** The way along the line. */
  function Along(n: nat): seq<nat> {
    seq(n + 1, i requires 0 <= i < n + 1 => i)
  }

  lemma AlongSpreads(n: nat, q: Search)
    requires q.order != [] && Origin(q) == 0
    ensures Spreads(Line(n), q, Along(n))
  {
    var path := Along(n);
    forall i | 0 < i < |path|
      ensures PassedBetween(Line(n), q, path[i - 1], path[i])
    {
      LinksAt(n, Port(i - 1, 1));
    }
  }

  lemma {:induction false} SlowWay(n: nat, q: Search, path: seq<nat>, i: nat)
    requires q.order != [] && Origin(q) == 0 && Spreads(Line(n), q, path) && i < |path|
    ensures path[i] <= i
  {
    if i > 0 {
      SlowWay(n, q, path, i - 1);
      assert PassedBetween(Line(n), q, path[i - 1], path[i]);
      LineJoins(n, path[i - 1], path[i]);
    }
  }

  lemma FirstSearch(top: Topology, n: nat, id: Id, fileId: Id) returns (s: State)
    requires TopologyOk(top)
    ensures Starts(top, EMPTY, s, n, id, fileId) && id in s.searches && s.searches[id] == Search(fileId, [n])
  {
    var o := Originate(Table(EMPTY, n), StartSessions(top, n), id, fileId);
    StartsAlike(top, n);
    BroadcastPackets(top, n, 0, PathRequest(id, MAX_TTL, fileId), o);
    hide TopologyOk, SessionsOf, StartSessions, Broadcast, Packets;
    s := Apply(top, EMPTY, n, o).(searches := map[id := Search(fileId, [n])]);
  }

  lemma FirstRun(top: Topology, s: State, n: nat, id: Id, fileId: Id)
    requires Wired(top) && Starts(top, EMPTY, s, n, id, fileId)
    ensures IsRun(top, [EMPTY, s])
  {
    hide Wired, Starts;
    assert Step(top, EMPTY, s);
  }

  lemma LineStarts(n: nat, id: Id, fileId: Id) returns (run: seq<State>)
    ensures IsRun(Line(n), run) && id in Now(run).searches && Now(run).searches[id] == Search(fileId, [0])
  {
    var top := Line(n);
    LineOk(n);
    WiredIsOk(top);
    hide Line, Wired;
    var s := FirstSearch(top, 0, id, fileId);
    run := [EMPTY, s];
    FirstRun(top, s, 0, id, fileId);
  }

  lemma SearchGrows(s: State, s': State, id: Id)
    requires Grows(s, s') && id in s.searches
    ensures id in s'.searches && s'.searches[id].fileId == s.searches[id].fileId
    ensures s.searches[id].order <= s'.searches[id].order
  {
    hide Table;
  }

  /** A search keeps its file and its originator. */
  lemma {:induction false} SearchStays(top: Topology, run: seq<State>, longer: seq<State>, id: Id)
    requires IsRun(top, run) && IsRun(top, longer) && run <= longer && id in Now(run).searches
    requires Now(run).searches[id].order != []
    ensures id in Now(longer).searches && Now(longer).searches[id].fileId == Now(run).searches[id].fileId
    ensures Now(run).searches[id].order <= Now(longer).searches[id].order
    decreases |longer|
  {
    if |run| < |longer| {
      var init := longer[..|longer| - 1];
      InitRun(top, longer);
      RunTopology(top, longer);
      assert run <= init;
      hide *;
      SearchStays(top, run, init, id);
      RunKeeps(top, init);
      StepGrows(top, Now(init), Now(longer));
      SearchGrows(Now(init), Now(longer), id);
    } else {
      assert run == longer;
    }
  }

  lemma FirstOf(a: seq<nat>, b: seq<nat>)
    requires a != [] && a <= b
    ensures b != [] && b[0] == a[0]
  {
  }

  lemma NoShorterWay(n: nat, q: Search)
    requires q.order != [] && Origin(q) == 0
    ensures forall path | Spreads(Line(n), q, path) && path[|path| - 1] == n :: |path| > n
  {
    hide Line;
    forall path | Spreads(Line(n), q, path) && path[|path| - 1] == n
      ensures |path| > n
    {
      SlowWay(n, q, path, |path| - 1);
    }
  }

  /** The hop count stops no request: for every `n` there is a run in which a node that is `n` hops from the originator
      records the request, and no way there is shorter. */
  lemma AnyNumberOfHops(n: nat, id: Id, fileId: Id) returns (run: seq<State>)
    ensures IsRun(Line(n), run) && id in Now(run).searches
    ensures Now(run).searches[id].order != [] && Origin(Now(run).searches[id]) == 0
    ensures id in Table(Now(run), n)
    ensures forall path | Spreads(Line(n), Now(run).searches[id], path) && path[|path| - 1] == n :: |path| > n
  {
    var start := LineStarts(n, id, fileId);
    run := SearchesComeToRest(Line(n), start);
    SearchStays(Line(n), start, run, id);
    var q := Now(run).searches[id];
    FirstOf([0], q.order);
    assert Origin(q) == 0;
    AlongSpreads(n, q);
    assert Along(n)[|Along(n)| - 1] == n;
    hide *;
    FloodIsComplete(Line(n), run, id, n);
    NoShorterWay(n, q);
  }
}
