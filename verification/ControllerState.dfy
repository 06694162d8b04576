/** The Controller's view of Agents, nodes and placement reservations.

    Each operation under the state lock is one function on `Controller`; `State` is the
    program's form. The results are about every interleaving of the operations: node
    states only move forward, the active index is exact, a heartbeat that is accepted
    records every completed exit, and reservations are always backed by counted slots.
 */
module ControllerState {
  import opened Model

  datatype Node = Node(agent: ID, state: NodeState, lastSeen: Time, startedAt: Time)

  datatype AgentRecord = AgentRecord(startedAt: Time, lastSeen: Time, online: bool, activeNodes: int, capacity: int)

  // Placement fields of a report; `capacity` is the limit the capacity rule derives from it.
  datatype AgentReport = AgentReport(id: ID, hasUrl: bool, startedAt: Time, at: Time, activeNodes: int, capacity: int)

  datatype NodeReport = NodeReport(id: ID, state: NodeState, lastSeen: Time, startedAt: Time)

  datatype Report = Report(agent: AgentReport, nodes: seq<NodeReport>, partial: bool)

  datatype Controller = Controller(
    agents: map<ID, AgentRecord>, nodes: map<ID, Node>, active: set<ID>,
    reservations: map<ID, ID>, snapshots: map<ID, Time>)

  datatype Verdict = Accepted | Ignored | Rejected

  const EMPTY := Controller(map[], map[], {}, map[], map[])

  const STALE_AFTER: Time := 10_000_000_000

  predicate Live(n: Node) { !Terminal(n.state) }

  function LiveNodes(nodes: map<ID, Node>): set<ID> { set id | id in nodes && Live(nodes[id]) }

  predicate Online(a: AgentRecord, now: Time) {
    a.online && (a.lastSeen == 0 || now <= a.lastSeen + STALE_AFTER)
  }

  function Snapshot(c: Controller, agent: ID): Time {
    if agent in c.snapshots then c.snapshots[agent] else 0
  }

  function ReservedFor(reservations: map<ID, ID>, agent: ID): set<ID> {
    set id | id in reservations && reservations[id] == agent
  }

  function ReservationOf(c: Controller, node: ID): ID {
    if node in c.reservations then c.reservations[node] else NO_ID
  }

  function OwnerOf(c: Controller, node: ID): ID {
    if node in c.nodes then c.nodes[node].agent else NO_ID
  }

  function SetNode(c: Controller, id: ID, node: Node): Controller {
    c.(nodes := c.nodes[id := node], active := if Live(node) then c.active + {id} else c.active - {id})
  }

  // ------------------------------------------------------------ registration

  function FailNode(n: Node, agent: ID, now: Time): Node {
    if n.agent == agent && Live(n) then n.(state := Failed, lastSeen := now) else n
  }

  // A new instance of the Agent has none of the old instance's nodes or reservations.
  function DropInstance(c: Controller, agent: ID, now: Time): Controller {
    c.(reservations := c.reservations - ReservedFor(c.reservations, agent),
       nodes := map id | id in c.nodes :: FailNode(c.nodes[id], agent, now),
       active := c.active - (set id | id in c.nodes && c.nodes[id].agent == agent && Live(c.nodes[id])),
       snapshots := c.snapshots - {agent})
  }

  function InstanceOf(c: Controller, r: AgentReport): Time {
    if r.id in c.agents && r.startedAt == 0 then c.agents[r.id].startedAt else r.startedAt
  }

  predicate Restarted(c: Controller, r: AgentReport) {
    r.id in c.agents && InstanceOf(c, r) != c.agents[r.id].startedAt
  }

  predicate CanRegister(c: Controller, r: AgentReport, now: Time) {
    && r.id != NO_ID && r.hasUrl
    && (Restarted(c, r) ==> c.agents[r.id].startedAt < InstanceOf(c, r) && !Online(c.agents[r.id], now))
  }

  function RegisteredActive(c: Controller, r: AgentReport): int {
    if Restarted(c, r) then r.activeNodes
    else if r.id in c.agents then MaxInt(r.activeNodes, c.agents[r.id].activeNodes)
    else r.activeNodes + |ReservedFor(c.reservations, r.id)|
  }

  function Register(c: Controller, r: AgentReport, now: Time): Controller {
    if !CanRegister(c, r, now) then c
    else
      var base := if Restarted(c, r) then DropInstance(c, r.id, now) else c;
      var started := if InstanceOf(c, r) == 0 then now else InstanceOf(c, r);
      base.(agents := base.agents[r.id :=
              AgentRecord(started, now, true, MaxInt(0, RegisteredActive(c, r)), r.capacity)],
            snapshots := if Snapshot(base, r.id) < r.at then base.snapshots[r.id := r.at] else base.snapshots)
  }

  // --------------------------------------------------------------- heartbeat

  // Completed exits are final; failed and stopping nodes may only progress.
  function Merged(c: Controller, agent: ID, r: NodeReport, now: Time): Node {
    var lastSeen := if r.lastSeen == 0 then now else r.lastSeen;
    var startedAt := if r.startedAt != 0 then r.startedAt
                     else if r.id in c.nodes then c.nodes[r.id].startedAt else now;
    var node := Node(agent, r.state, lastSeen, startedAt);
    if r.id !in c.nodes then node
    else
      var prior := c.nodes[r.id];
      if prior.state.Stopped? && !node.state.Stopped? then prior
      else if prior.state.Failed? && !Ending(node.state) then prior
      else if prior.state.Stopping? && !Ending(node.state) then prior
      else node
  }

  function ApplyNode(c: Controller, agent: ID, r: NodeReport, now: Time): Controller {
    var d := SetNode(c, r.id, Merged(c, agent, r, now));
    if ReservationOf(c, r.id) == agent then d.(reservations := d.reservations - {r.id}) else d
  }

  function ApplyNodes(c: Controller, agent: ID, rs: seq<NodeReport>, now: Time): Controller {
    if rs == [] then c else ApplyNode(ApplyNodes(c, agent, rs[..|rs| - 1], now), agent, rs[|rs| - 1], now)
  }

  // How many reservations the listed nodes release, and how many of them end up not ending.
  function Released(c: Controller, agent: ID, rs: seq<NodeReport>, now: Time): nat {
    if rs == [] then 0
    else
      var prefix := rs[..|rs| - 1];
      var freed := ReservationOf(ApplyNodes(c, agent, prefix, now), rs[|rs| - 1].id) == agent;
      Released(c, agent, prefix, now) + if freed then 1 else 0
  }

  function ListedActive(c: Controller, agent: ID, rs: seq<NodeReport>, now: Time): nat {
    if rs == [] then 0
    else
      var prefix := rs[..|rs| - 1];
      var node := Merged(ApplyNodes(c, agent, prefix, now), agent, rs[|rs| - 1], now);
      ListedActive(c, agent, prefix, now) + if Ending(node.state) then 0 else 1
  }

  lemma ListStep(c: Controller, agent: ID, rs: seq<NodeReport>, i: nat, now: Time)
    requires i < |rs|
    ensures var d, r := ApplyNodes(c, agent, rs[..i], now), rs[i];
      && ApplyNodes(c, agent, rs[..i + 1], now) == ApplyNode(d, agent, r, now)
      && Released(c, agent, rs[..i + 1], now) == Released(c, agent, rs[..i], now) + (if ReservationOf(d, r.id) == agent then 1 else 0)
      && ListedActive(c, agent, rs[..i + 1], now) == ListedActive(c, agent, rs[..i], now) + (if Ending(Merged(d, agent, r, now).state) then 0 else 1)
  {
    hide Merged, ApplyNode, ReservationOf;
    assert rs[..i + 1][..i] == rs[..i];
  }

  lemma ListNothing(c: Controller, agent: ID, now: Time)
    ensures ApplyNodes(c, agent, [], now) == c && Released(c, agent, [], now) == 0 && ListedActive(c, agent, [], now) == 0
  {
  }

  function ObservedActive(c: Controller, agent: ID): set<ID> {
    set id | id in c.active && id in c.nodes && Live(c.nodes[id]) && !c.nodes[id].state.Stopping?
             && c.nodes[id].agent == agent && ReservationOf(c, id) != agent
  }

  predicate Omitted(c: Controller, agent: ID, listed: set<ID>, id: ID)
    requires id in c.nodes
  {
    c.nodes[id].agent == agent && id !in listed && !c.nodes[id].state.Stopped? && ReservationOf(c, id) != agent
  }

  // A full report is an inventory: what it leaves out has ended.
  function EndOmitted(c: Controller, agent: ID, listed: set<ID>, now: Time): Controller {
    c.(nodes := map id | id in c.nodes ::
         if Omitted(c, agent, listed, id) then c.nodes[id].(state := Stopped, lastSeen := now) else c.nodes[id],
       active := c.active - (set id | id in c.nodes && Omitted(c, agent, listed, id)))
  }

  // The inventory applied to the nodes of one set.
  function EndWithin(c: Controller, agent: ID, listed: set<ID>, now: Time, ids: set<ID>): Controller {
    c.(nodes := map id | id in c.nodes ::
         if id in ids && Omitted(c, agent, listed, id) then c.nodes[id].(state := Stopped, lastSeen := now) else c.nodes[id],
       active := c.active - (set id | id in c.nodes && id in ids && Omitted(c, agent, listed, id)))
  }

  lemma NoneEnded(c: Controller, agent: ID, listed: set<ID>, now: Time)
    ensures EndWithin(c, agent, listed, now, {}) == c
  {
    var e := EndWithin(c, agent, listed, now, {});
    assert e.nodes == c.nodes && e.active == c.active;
  }

  lemma AllEnded(c: Controller, agent: ID, listed: set<ID>, now: Time)
    ensures EndWithin(c, agent, listed, now, c.nodes.Keys) == EndOmitted(c, agent, listed, now)
  {
    var e, f := EndWithin(c, agent, listed, now, c.nodes.Keys), EndOmitted(c, agent, listed, now);
    assert e.nodes == f.nodes && e.active == f.active;
  }

  lemma EndStep(c: Controller, agent: ID, listed: set<ID>, now: Time, ids: set<ID>, id: ID)
    requires id in c.nodes && id !in ids
    ensures var e := EndWithin(c, agent, listed, now, ids);
      && id in e.nodes && e.nodes[id] == c.nodes[id] && e.reservations == c.reservations
      && EndWithin(c, agent, listed, now, ids + {id})
         == if Omitted(c, agent, listed, id) then SetNode(e, id, c.nodes[id].(state := Stopped, lastSeen := now)) else e
  {
    hide Omitted;
    var e, f := EndWithin(c, agent, listed, now, ids), EndWithin(c, agent, listed, now, ids + {id});
    if Omitted(c, agent, listed, id) {
      var g := SetNode(e, id, c.nodes[id].(state := Stopped, lastSeen := now));
      assert f.nodes == g.nodes && f.active == g.active;
    } else {
      assert f.nodes == e.nodes && f.active == e.active;
    }
  }

  lemma EndedMeans(c: Controller, agent: ID, listed: set<ID>, now: Time)
    requires agent != NO_ID
    ensures var e := EndOmitted(c, agent, listed, now).nodes;
      e.Keys == c.nodes.Keys && forall id :: id in e ==> (var n := c.nodes[id];
        e[id] == if n.agent == agent && id !in listed && !n.state.Stopped? && !(id in c.reservations && c.reservations[id] == agent)
          then n.(state := Stopped, lastSeen := now) else n)
  {
  }

  function IDs(rs: seq<NodeReport>): set<ID> { set r | r in rs :: r.id }

  predicate Stale(c: Controller, h: Report) {
    h.agent.at != 0 && Snapshot(c, h.agent.id) != 0 && h.agent.at < Snapshot(c, h.agent.id)
  }

  predicate Superseded(c: Controller, h: Report) {
    !h.partial && h.agent.at != 0 && Snapshot(c, h.agent.id) != 0 && h.agent.at <= Snapshot(c, h.agent.id)
  }

  predicate Foreign(c: Controller, agent: ID, r: NodeReport) {
    || r.id == NO_ID
    || (OwnerOf(c, r.id) != NO_ID && OwnerOf(c, r.id) != agent)
    || (ReservationOf(c, r.id) != NO_ID && ReservationOf(c, r.id) != agent)
  }

  predicate BadAt(c: Controller, agent: ID, rs: seq<NodeReport>, i: nat)
    requires i < |rs|
  {
    Foreign(c, agent, rs[i]) || exists j :: 0 <= j < i && rs[j].id == rs[i].id
  }

  predicate GoodNodes(c: Controller, agent: ID, rs: seq<NodeReport>) {
    forall i :: 0 <= i < |rs| ==> !BadAt(c, agent, rs, i)
  }

  function Judge(c: Controller, h: Report): Verdict {
    if h.agent.id == NO_ID || h.agent.id !in c.agents then Rejected
    else if h.agent.startedAt != 0 && h.agent.startedAt != c.agents[h.agent.id].startedAt then Rejected
    else if Superseded(c, h) then Ignored
    else if !GoodNodes(c, h.agent.id, h.nodes) then Rejected
    else Accepted
  }

  function Exits(rs: seq<NodeReport>): seq<NodeReport> {
    if rs == [] then []
    else
      var last := rs[|rs| - 1];
      Exits(rs[..|rs| - 1]) + if last.state.Stopped? then [last] else []
  }

  // A stale report still carries final news: its completed exits, and nothing else.
  function Usable(c: Controller, h: Report): seq<NodeReport> {
    if Stale(c, h) then Exits(h.nodes) else h.nodes
  }

  function HeartbeatRecord(c: Controller, h: Report, now: Time): AgentRecord
    requires Judge(c, h) == Accepted
  {
    var agent := h.agent.id;
    var previous := c.agents[agent];
    var rs := Usable(c, h);
    var listed := ApplyNodes(c, agent, rs, now);
    if Stale(c, h) then
      previous.(activeNodes := MaxInt(0, previous.activeNodes - Released(c, agent, rs, now)))
    else
      var observed := if h.partial then |ObservedActive(listed, agent)| else ListedActive(c, agent, rs, now);
      AgentRecord(previous.startedAt, now, true,
                  MaxInt(MaxInt(0, h.agent.activeNodes), observed) + |ReservedFor(listed.reservations, agent)|,
                  h.agent.capacity)
  }

  function Heartbeat(c: Controller, h: Report, now: Time): Controller {
    if Judge(c, h) != Accepted then c
    else
      var agent := h.agent.id;
      var listed := ApplyNodes(c, agent, Usable(c, h), now);
      var ended := if h.partial then listed else EndOmitted(listed, agent, IDs(h.nodes), now);
      ended.(agents := ended.agents[agent := HeartbeatRecord(c, h, now)],
             snapshots := if !Stale(c, h) && h.agent.at != 0 then ended.snapshots[agent := h.agent.at] else ended.snapshots)
  }

  // --------------------------------------------------------------- placement

  predicate Candidate(c: Controller, id: ID, target: ID, now: Time) {
    && id in c.agents && (target == NO_ID || id == target)
    && Online(c.agents[id], now)
    && !(c.agents[id].capacity > 0 && c.agents[id].activeNodes >= c.agents[id].capacity)
  }

  function Take(c: Controller, node: ID, agent: ID): Controller
    requires agent in c.agents
  {
    c.(agents := c.agents[agent := c.agents[agent].(activeNodes := c.agents[agent].activeNodes + 1)],
       reservations := c.reservations[node := agent])
  }

  function Release(c: Controller, node: ID): Controller {
    var agent := ReservationOf(c, node);
    var freed := c.(reservations := c.reservations - {node});
    if agent in c.agents && c.agents[agent].activeNodes > 0
    then freed.(agents := c.agents[agent := c.agents[agent].(activeNodes := c.agents[agent].activeNodes - 1)])
    else freed
  }

  function RecordCreated(c: Controller, agent: ID, instance: Time, id: ID, node: Node): Controller {
    if agent !in c.agents || c.agents[agent].startedAt != instance then c
    else if id !in c.nodes || (!Ending(c.nodes[id].state) && c.nodes[id].lastSeen < node.lastSeen)
    then SetNode(c, id, node)
    else c
  }

  function MarkStopping(c: Controller, id: ID, now: Time): Controller {
    var marked := if id in c.nodes && !Ending(c.nodes[id].state)
                  then SetNode(c, id, c.nodes[id].(state := Stopping, lastSeen := now)) else c;
    marked.(reservations := marked.reservations - {id})
  }

  function MarkStale(c: Controller, now: Time, maxAge: Time): Controller {
    c.(agents := map id | id in c.agents ::
         if c.agents[id].lastSeen + maxAge < now then c.agents[id].(online := false) else c.agents[id])
  }

  function SetCapacity(c: Controller, agent: ID, capacity: int): Controller {
    if agent in c.agents then c.(agents := c.agents[agent := c.agents[agent].(capacity := capacity)]) else c
  }

  datatype Op =
    | OpRegister(report: AgentReport, now: Time)
    | OpHeartbeat(heartbeat: Report, now: Time)
    | OpReserve(node: ID, target: ID, choice: ID, now: Time)
    | OpRelease(node: ID)
    | OpRecordCreated(agent: ID, instance: Time, node: ID, record: Node)
    | OpMarkStopping(node: ID, now: Time)
    | OpMarkStale(now: Time, maxAge: Time)
    | OpSetCapacity(agent: ID, capacity: int)

  function Apply(c: Controller, op: Op): Controller {
    match op
    case OpRegister(r, now) => Register(c, r, now)
    case OpHeartbeat(h, now) => Heartbeat(c, h, now)
    case OpReserve(node, target, choice, now) =>
      if node !in c.reservations && Candidate(c, choice, target, now) then Take(c, node, choice) else c
    case OpRelease(node) => Release(c, node)
    case OpRecordCreated(agent, instance, id, node) => RecordCreated(c, agent, instance, id, node)
    case OpMarkStopping(id, now) => MarkStopping(c, id, now)
    case OpMarkStale(now, maxAge) => MarkStale(c, now, maxAge)
    case OpSetCapacity(agent, capacity) => SetCapacity(c, agent, capacity)
  }

  function Run(c: Controller, ops: seq<Op>): Controller {
    if ops == [] then c else Apply(Run(c, ops[..|ops| - 1]), ops[|ops| - 1])
  }

  // ------------------------------------------------------- forward movement

  // The order in which a node may move: Stopped is final, and ending stays ending.
  predicate Forward(a: NodeState, b: NodeState) {
    (a.Stopped? ==> b.Stopped?) && (Ending(a) ==> Ending(b))
  }

  ghost predicate NodesForward(c: Controller, d: Controller) {
    forall id :: id in c.nodes ==> id in d.nodes && Forward(c.nodes[id].state, d.nodes[id].state)
  }

  lemma {:induction false} ApplyNodesForward(c: Controller, agent: ID, rs: seq<NodeReport>, now: Time)
    ensures NodesForward(c, ApplyNodes(c, agent, rs, now))
    ensures ApplyNodes(c, agent, rs, now).agents == c.agents
    ensures ApplyNodes(c, agent, rs, now).snapshots == c.snapshots
    ensures forall id :: id in IDs(rs) ==> id in ApplyNodes(c, agent, rs, now).nodes
  {
    if rs != [] {
      var n := |rs| - 1;
      ApplyNodesForward(c, agent, rs[..n], now);
      assert rs == rs[..n] + [rs[n]];
    }
  }

  lemma OpForward(c: Controller, op: Op)
    ensures NodesForward(c, Apply(c, op))
  {
    match op
    case OpHeartbeat(h, now) => ApplyNodesForward(c, h.agent.id, Usable(c, h), now);
    case _ =>
  }

  /** Over every interleaving: Stopped is never left, and a node that was once Stopping,
      Stopped or Failed is never Starting or Ready again. */
  lemma {:induction false} LifecycleIsMonotone(c: Controller, ops: seq<Op>)
    ensures NodesForward(c, Run(c, ops))
  {
    if ops != [] {
      LifecycleIsMonotone(c, ops[..|ops| - 1]);
      OpForward(Run(c, ops[..|ops| - 1]), ops[|ops| - 1]);
    }
  }

  // ------------------------------------------------------------ active index

  ghost predicate IndexExact(c: Controller) { c.active == LiveNodes(c.nodes) }

  lemma SetNodeIndex(c: Controller, id: ID, node: Node)
    requires IndexExact(c)
    ensures IndexExact(SetNode(c, id, node))
  {
  }

  lemma {:induction false} ApplyNodesIndex(c: Controller, agent: ID, rs: seq<NodeReport>, now: Time)
    requires IndexExact(c)
    ensures IndexExact(ApplyNodes(c, agent, rs, now))
  {
    if rs != [] {
      var n := |rs| - 1;
      ApplyNodesIndex(c, agent, rs[..n], now);
      var d := ApplyNodes(c, agent, rs[..n], now);
      SetNodeIndex(d, rs[n].id, Merged(d, agent, rs[n], now));
    }
  }

  lemma OpIndex(c: Controller, op: Op)
    requires IndexExact(c)
    ensures IndexExact(Apply(c, op))
  {
    match op
    case OpHeartbeat(h, now) => ApplyNodesIndex(c, h.agent.id, Usable(c, h), now);
    case _ =>
  }

  // -------------------------------------------------------------- exits heard

  lemma {:induction false} ExitsListed(rs: seq<NodeReport>)
    ensures forall r :: r in Exits(rs) <==> r in rs && r.state.Stopped?
  {
    if rs != [] {
      var n := |rs| - 1;
      ExitsListed(rs[..n]);
      assert rs == rs[..n] + [rs[n]];
    }
  }

  lemma {:induction false} ExitsApplied(c: Controller, agent: ID, rs: seq<NodeReport>, now: Time)
    ensures forall r :: r in rs && r.state.Stopped? ==>
              r.id in ApplyNodes(c, agent, rs, now).nodes && ApplyNodes(c, agent, rs, now).nodes[r.id].state.Stopped?
  {
    if rs != [] {
      var n := |rs| - 1;
      ExitsApplied(c, agent, rs[..n], now);
      assert rs == rs[..n] + [rs[n]];
    }
  }

  /** An accepted heartbeat, fresh or stale, records every completed exit it lists. */
  lemma AcceptedExitsAreStopped(c: Controller, h: Report, now: Time)
    requires Judge(c, h) == Accepted
    ensures forall r :: r in h.nodes && r.state.Stopped? ==>
              r.id in Heartbeat(c, h, now).nodes && Heartbeat(c, h, now).nodes[r.id].state.Stopped?
  {
    ExitsListed(h.nodes);
    ExitsApplied(c, h.agent.id, Usable(c, h), now);
  }

  // ---------------------------------------------------- what a report leaves

  // A listed node moves on if its order of states allows it, and else stays exactly as it was.
  ghost predicate Listed(nodes: map<ID, Node>, later: map<ID, Node>, agent: ID, r: NodeReport, now: Time) {
    r.id in later &&
    if r.id !in nodes then
      later[r.id] == Node(agent, r.state, if r.lastSeen == 0 then now else r.lastSeen, if r.startedAt == 0 then now else r.startedAt)
    else if Forward(nodes[r.id].state, r.state) then
      later[r.id] == Node(agent, r.state, if r.lastSeen == 0 then now else r.lastSeen,
                          if r.startedAt == 0 then nodes[r.id].startedAt else r.startedAt)
    else later[r.id] == nodes[r.id]
  }

  ghost predicate DistinctIDs(rs: seq<NodeReport>) { forall i, j :: 0 <= i < j < |rs| ==> rs[i].id != rs[j].id }

  ghost predicate OthersSame(nodes: map<ID, Node>, later: map<ID, Node>, ids: set<ID>) {
    forall id :: id !in ids ==> (id in later <==> id in nodes) && (id in nodes ==> later[id] == nodes[id])
  }

  lemma ListedByMerge(c: Controller, agent: ID, r: NodeReport, now: Time)
    ensures Listed(c.nodes, ApplyNode(c, agent, r, now).nodes, agent, r, now)
    ensures OthersSame(c.nodes, ApplyNode(c, agent, r, now).nodes, {r.id})
  {
  }

  lemma ListedLast(nodes: map<ID, Node>, before: map<ID, Node>, later: map<ID, Node>, agent: ID, most: seq<NodeReport>, last: NodeReport, now: Time)
    requires OthersSame(nodes, before, IDs(most)) && last.id !in IDs(most)
    requires Listed(before, later, agent, last, now) && OthersSame(before, later, {last.id})
    ensures Listed(nodes, later, agent, last, now) && OthersSame(nodes, later, IDs(most) + {last.id})
    ensures forall r :: r in most && Listed(nodes, before, agent, r, now) ==> Listed(nodes, later, agent, r, now)
  {
    assert (last.id in before <==> last.id in nodes) && (last.id in nodes ==> before[last.id] == nodes[last.id]);
  }

  /** Every listed node moves exactly as far as its order of states allows, and no other one. */
  lemma {:induction false} ListingMeans(c: Controller, agent: ID, rs: seq<NodeReport>, now: Time)
    requires DistinctIDs(rs)
    ensures var d := ApplyNodes(c, agent, rs, now);
      (forall r :: r in rs ==> Listed(c.nodes, d.nodes, agent, r, now)) && OthersSame(c.nodes, d.nodes, IDs(rs))
  {
    SameAsBefore(c.nodes);
    hide Listed, OthersSame, ApplyNode;
    if rs == [] {
      assert IDs(rs) == {};
    } else {
      var n := |rs| - 1;
      var most, last := rs[..n], rs[n];
      ListingMeans(c, agent, most, now);
      LastIsNew(rs);
      var d := ApplyNodes(c, agent, most, now);
      ListedByMerge(d, agent, last, now);
      ListedLast(c.nodes, d.nodes, ApplyNode(d, agent, last, now).nodes, agent, most, last, now);
    }
  }

  lemma SameAsBefore(nodes: map<ID, Node>)
    ensures OthersSame(nodes, nodes, {})
  {
  }

  lemma LastIsNew(rs: seq<NodeReport>)
    requires rs != [] && DistinctIDs(rs)
    ensures var most, last := rs[..|rs| - 1], rs[|rs| - 1];
      && rs == most + [last] && IDs(rs) == IDs(most) + {last.id} && last.id !in IDs(most)
      && forall r :: r in rs <==> r in most || r == last
  {
    var most, last := rs[..|rs| - 1], rs[|rs| - 1];
    assert rs == most + [last];
  }

  ghost function StillActive(nodes: map<ID, Node>, ids: set<ID>): set<ID> { set id | id in ids && Progressing(nodes, id) }

  lemma StillActivePlus(nodes: map<ID, Node>, ids: set<ID>, id: ID, node: Node)
    requires id !in ids
    ensures |StillActive(nodes[id := node], ids + {id})| == |StillActive(nodes, ids)| + if Ending(node.state) then 0 else 1
  {
    assert StillActive(nodes[id := node], ids + {id}) == StillActive(nodes, ids) + if Ending(node.state) then {} else {id};
  }

  // The count the program keeps is the number of listed nodes that are neither ended nor ending.
  lemma {:induction false} ListedCount(c: Controller, agent: ID, rs: seq<NodeReport>, now: Time)
    requires DistinctIDs(rs)
    ensures ListedActive(c, agent, rs, now) == |StillActive(ApplyNodes(c, agent, rs, now).nodes, IDs(rs))|
  {
    hide Merged, StillActive, ReservationOf;
    if rs == [] {
      NoneActive(c.nodes);
    } else {
      var n := |rs| - 1;
      var most, last := rs[..n], rs[n];
      ListedCount(c, agent, most, now);
      LastIsNew(rs);
      var d := ApplyNodes(c, agent, most, now);
      var node := Merged(d, agent, last, now);
      assert ApplyNode(d, agent, last, now).nodes == d.nodes[last.id := node];
      hide ApplyNode;
      StillActivePlus(d.nodes, IDs(most), last.id, node);
    }
  }

  lemma NoneActive(nodes: map<ID, Node>)
    ensures IDs([]) == {} && StillActive(nodes, {}) == {}
  {
  }

  // Neither ended nor ending.
  ghost predicate Progressing(nodes: map<ID, Node>, id: ID) { id in nodes && (nodes[id].state.Starting? || nodes[id].state.Ready?) }

  // -------------------------------------------------------------- reservations

  // Every reservation names a known Agent and is counted in its occupancy.
  ghost predicate Backed(c: Controller) {
    && (forall id :: id in c.reservations ==> c.reservations[id] in c.agents)
    && (forall a :: a in c.agents ==> |ReservedFor(c.reservations, a)| <= c.agents[a].activeNodes)
    && NO_ID !in c.agents
  }

  lemma FewerReservations(r: map<ID, ID>, s: map<ID, ID>, agent: ID)
    requires forall id :: id in s ==> id in r && r[id] == s[id]
    ensures |ReservedFor(s, agent)| <= |ReservedFor(r, agent)|
  {
    SubsetSize(ReservedFor(s, agent), ReservedFor(r, agent));
  }

  // What listing nodes does to reservations: exactly the listed ones of this Agent go.
  lemma {:induction false} ApplyNodesReservations(c: Controller, agent: ID, rs: seq<NodeReport>, now: Time)
    ensures forall id :: id in ApplyNodes(c, agent, rs, now).reservations <==>
              id in c.reservations && !(id in IDs(rs) && c.reservations[id] == agent)
    ensures forall id :: id in ApplyNodes(c, agent, rs, now).reservations ==>
              ApplyNodes(c, agent, rs, now).reservations[id] == c.reservations[id]
  {
    if rs != [] {
      var n := |rs| - 1;
      ApplyNodesReservations(c, agent, rs[..n], now);
      assert rs == rs[..n] + [rs[n]];
      assert IDs(rs) == IDs(rs[..n]) + {rs[n].id};
    }
  }

  lemma {:induction false} ReleasedCount(c: Controller, agent: ID, rs: seq<NodeReport>, now: Time)
    requires agent != NO_ID
    ensures |ReservedFor(ApplyNodes(c, agent, rs, now).reservations, agent)| + Released(c, agent, rs, now)
            == |ReservedFor(c.reservations, agent)|
  {
    if rs != [] {
      var n := |rs| - 1;
      ReleasedCount(c, agent, rs[..n], now);
      var d := ApplyNodes(c, agent, rs[..n], now);
      var e := ApplyNodes(c, agent, rs, now);
      if ReservationOf(d, rs[n].id) == agent {
        assert ReservedFor(d.reservations, agent) == ReservedFor(e.reservations, agent) + {rs[n].id};
      } else {
        assert ReservedFor(d.reservations, agent) == ReservedFor(e.reservations, agent);
      }
    }
  }

  // What an accepted heartbeat uses: all it lists, or of a stale one its completed exits.
  ghost predicate Used(c: Controller, h: Report, r: NodeReport) {
    r in h.nodes && (h.agent.at != 0 && h.agent.id in c.snapshots && h.agent.at < c.snapshots[h.agent.id] ==> r.state.Stopped?)
  }

  ghost function UsedIDs(c: Controller, h: Report): set<ID> { set r | r in h.nodes && Used(c, h, r) :: r.id }

  // A node that the heartbeat did not use: a full inventory ends it, unless its slot is only reserved.
  ghost predicate Unlisted(c: Controller, h: Report, now: Time, d: Controller, id: ID) {
    && (id in d.nodes <==> id in c.nodes)
    && (id in c.nodes ==> (var n := c.nodes[id];
          var reserved := id in c.reservations && c.reservations[id] == h.agent.id;
          d.nodes[id] == if !h.partial && n.agent == h.agent.id && !n.state.Stopped? && !reserved then n.(state := Stopped, lastSeen := now) else n))
  }

  ghost predicate NodesHeard(c: Controller, h: Report, now: Time, d: Controller) {
    && (forall r :: Used(c, h, r) ==> Listed(c.nodes, d.nodes, h.agent.id, r, now))
    && (forall id :: id !in UsedIDs(c, h) ==> Unlisted(c, h, now, d, id))
    && d.reservations == map id | id in c.reservations && !(id in UsedIDs(c, h) && c.reservations[id] == h.agent.id) :: c.reservations[id]
  }

  // Nodes of the Agent that are neither ended nor ending, nor counted as reserved.
  ghost function Observed(d: Controller, agent: ID): set<ID> {
    set id | id in d.nodes && d.nodes[id].agent == agent && Progressing(d.nodes, id) && !(id in d.reservations && d.reservations[id] == agent)
  }

  ghost predicate AgentHeard(c: Controller, h: Report, now: Time, d: Controller) {
    var agent := h.agent.id;
    var stale := h.agent.at != 0 && agent in c.snapshots && h.agent.at < c.snapshots[agent];
    var was, held := |set id | id in c.reservations && c.reservations[id] == agent|, |set id | id in d.reservations && d.reservations[id] == agent|;
    && agent in c.agents && agent in d.agents && d.agents == c.agents[agent := d.agents[agent]]
    && d.snapshots == (if stale || h.agent.at == 0 then c.snapshots else c.snapshots[agent := h.agent.at])
    && (var observed := if h.partial then |Observed(d, agent)| else |StillActive(d.nodes, UsedIDs(c, h))|;
        d.agents[agent] ==
          if stale then c.agents[agent].(activeNodes := MaxInt(0, c.agents[agent].activeNodes - (was - held)))
          else AgentRecord(c.agents[agent].startedAt, now, true, MaxInt(MaxInt(0, h.agent.activeNodes), observed) + held, h.agent.capacity))
  }

  lemma {:induction false} ExitsDistinct(rs: seq<NodeReport>)
    requires DistinctIDs(rs)
    ensures DistinctIDs(Exits(rs))
  {
    if rs != [] {
      ExitsDistinct(rs[..|rs| - 1]);
      ExitsListed(rs[..|rs| - 1]);
      var exits := Exits(rs[..|rs| - 1]);
      forall e | e in exits ensures e.id != rs[|rs| - 1].id { }
    }
  }

  lemma UsedIs(c: Controller, h: Report)
    requires Judge(c, h) == Accepted
    ensures DistinctIDs(Usable(c, h)) && IDs(Usable(c, h)) == UsedIDs(c, h) && forall r :: r in Usable(c, h) <==> Used(c, h, r)
    ensures !h.partial ==> Usable(c, h) == h.nodes
  {
    ExitsListed(h.nodes);
    assert DistinctIDs(h.nodes) by {
      forall i, j | 0 <= i < j < |h.nodes| ensures h.nodes[i].id != h.nodes[j].id { assert !BadAt(c, h.agent.id, h.nodes, j); }
    }
    ExitsDistinct(h.nodes);
  }

  // An accepted heartbeat in its two parts: the listing, then the inventory.
  lemma HeartbeatParts(c: Controller, h: Report, now: Time)
    requires Judge(c, h) == Accepted
    ensures var listed, d := ApplyNodes(c, h.agent.id, Usable(c, h), now), Heartbeat(c, h, now);
      && d.reservations == listed.reservations && h.agent.id in c.agents && h.agent.id != NO_ID
      && d.nodes == (if h.partial then listed.nodes else EndOmitted(listed, h.agent.id, IDs(h.nodes), now).nodes)
      && (Stale(c, h) ==> h.partial) && d.agents == c.agents[h.agent.id := HeartbeatRecord(c, h, now)]
      && d.snapshots == (if !Stale(c, h) && h.agent.at != 0 then c.snapshots[h.agent.id := h.agent.at] else c.snapshots)
  {
    hide ApplyNodes, HeartbeatRecord, GoodNodes;
    ApplyNodesForward(c, h.agent.id, Usable(c, h), now);
  }

  lemma InventoryMeans(c: Controller, listed: Controller, agent: ID, ids: set<ID>, now: Time)
    requires OthersSame(c.nodes, listed.nodes, ids)
    requires forall id :: id in listed.reservations <==> id in c.reservations && !(id in ids && c.reservations[id] == agent)
    requires forall id :: id in listed.reservations ==> listed.reservations[id] == c.reservations[id]
    requires agent != NO_ID
    ensures var e := EndOmitted(listed, agent, ids, now).nodes;
      && (forall id :: id in ids && id in listed.nodes ==> id in e && e[id] == listed.nodes[id])
      && forall id :: id !in ids ==> (id in e <==> id in c.nodes) && (id in c.nodes ==>
           (var n := c.nodes[id]; var reserved := id in c.reservations && c.reservations[id] == agent;
            e[id] == if n.agent == agent && !n.state.Stopped? && !reserved then n.(state := Stopped, lastSeen := now) else n))
  {
    var e := EndOmitted(listed, agent, ids, now).nodes;
    forall id | id !in ids && id in c.nodes ensures id in e && (var n := c.nodes[id]; var reserved := id in c.reservations && c.reservations[id] == agent;
            e[id] == if n.agent == agent && !n.state.Stopped? && !reserved then n.(state := Stopped, lastSeen := now) else n)
    {
      assert id in listed.nodes && listed.nodes[id] == c.nodes[id];
    }
  }

  /** What an accepted heartbeat makes of every node, listed or not, and of the reservations. */
  lemma HeartbeatMeans(c: Controller, h: Report, now: Time)
    requires Judge(c, h) == Accepted
    ensures NodesHeard(c, h, now, Heartbeat(c, h, now))
  {
    hide ApplyNodes, Judge, Usable, HeartbeatRecord, Heartbeat, Stale, EndOmitted, Listed;
    var agent, rs := h.agent.id, Usable(c, h);
    UsedIs(c, h);
    ListingMeans(c, agent, rs, now);
    ApplyNodesReservations(c, agent, rs, now);
    HeartbeatParts(c, h, now);
    var listed, d := ApplyNodes(c, agent, rs, now), Heartbeat(c, h, now);
    var ids := UsedIDs(c, h);
    if !h.partial { InventoryMeans(c, listed, agent, ids, now); }
    assert forall r :: Used(c, h, r) ==> r.id in ids;
    forall r | Used(c, h, r) ensures Listed(c.nodes, d.nodes, agent, r, now) {
      ListedSame(c.nodes, listed.nodes, d.nodes, agent, r, now);
    }
  }

  lemma ListedSame(nodes: map<ID, Node>, a: map<ID, Node>, b: map<ID, Node>, agent: ID, r: NodeReport, now: Time)
    requires Listed(nodes, a, agent, r, now) && (r.id in a ==> r.id in b && b[r.id] == a[r.id])
    ensures Listed(nodes, b, agent, r, now)
  {
  }

  /** And of the Agent: its occupancy covers what it reports, what is seen to run, and what is reserved. */
  lemma HeartbeatCounts(c: Controller, h: Report, now: Time)
    requires Judge(c, h) == Accepted && IndexExact(c)
    ensures AgentHeard(c, h, now, Heartbeat(c, h, now))
  {
    hide ApplyNodes, Judge, Usable, Heartbeat, EndOmitted, ListedActive, Released, ObservedActive, StillActive, Observed, HeartbeatRecord, ReservedFor;
    var agent, rs := h.agent.id, Usable(c, h);
    var listed, d := ApplyNodes(c, agent, rs, now), Heartbeat(c, h, now);
    HeartbeatParts(c, h, now);
    ReleasedCount(c, agent, rs, now);
    ReservedIs(c.reservations, agent);
    ReservedIs(d.reservations, agent);
    CountsAre(c, h, now);
    RecordIs(c, h, now);
  }

  lemma ReservedIs(reservations: map<ID, ID>, agent: ID)
    ensures ReservedFor(reservations, agent) == set id | id in reservations && reservations[id] == agent
  {
  }

  lemma RecordIs(c: Controller, h: Report, now: Time)
    requires Judge(c, h) == Accepted
    ensures var agent, rs := h.agent.id, Usable(c, h);
      var listed := ApplyNodes(c, agent, rs, now);
      var observed := if h.partial then |ObservedActive(listed, agent)| else ListedActive(c, agent, rs, now);
      agent in c.agents && HeartbeatRecord(c, h, now) ==
        if Stale(c, h) then c.agents[agent].(activeNodes := MaxInt(0, c.agents[agent].activeNodes - Released(c, agent, rs, now)))
        else AgentRecord(c.agents[agent].startedAt, now, true,
               MaxInt(MaxInt(0, h.agent.activeNodes), observed) + |ReservedFor(listed.reservations, agent)|, h.agent.capacity)
  {
    hide ApplyNodes, ListedActive, Released, ReservedFor, ObservedActive, Usable, GoodNodes;
  }

  lemma CountsAre(c: Controller, h: Report, now: Time)
    requires Judge(c, h) == Accepted && IndexExact(c)
    ensures var agent, listed, d := h.agent.id, ApplyNodes(c, h.agent.id, Usable(c, h), now), Heartbeat(c, h, now);
      if h.partial then |ObservedActive(listed, agent)| == |Observed(d, agent)|
      else ListedActive(c, agent, Usable(c, h), now) == |StillActive(d.nodes, UsedIDs(c, h))|
  {
    hide ApplyNodes, Judge, Usable, Heartbeat, ListedActive, HeartbeatRecord, Stale;
    var agent, rs := h.agent.id, Usable(c, h);
    var listed, d := ApplyNodes(c, agent, rs, now), Heartbeat(c, h, now);
    UsedIs(c, h);
    HeartbeatParts(c, h, now);
    ApplyNodesIndex(c, agent, rs, now);
    if h.partial {
      assert ObservedActive(listed, agent) == Observed(d, agent);
    } else {
      ListedCount(c, agent, rs, now);
      assert StillActive(d.nodes, UsedIDs(c, h)) == StillActive(listed.nodes, IDs(rs));
    }
  }

  // The Agent is registered, as the instance that reports.
  ghost predicate Expected(c: Controller, h: Report) {
    && h.agent.id != NO_ID && h.agent.id in c.agents
    && (h.agent.startedAt == 0 || h.agent.startedAt == c.agents[h.agent.id].startedAt)
  }

  // A full report that is not newer than what is known.
  ghost predicate Repeated(c: Controller, h: Report) {
    !h.partial && h.agent.at != 0 && h.agent.id in c.snapshots && c.snapshots[h.agent.id] != 0 && h.agent.at <= c.snapshots[h.agent.id]
  }

  // It lists a node without a name, a node twice, or a node that belongs to or is reserved on another Agent.
  ghost predicate SomeForeign(c: Controller, h: Report) {
    || !DistinctIDs(h.nodes)
    || (exists r :: r in h.nodes && (r.id == NO_ID
         || (r.id in c.nodes && c.nodes[r.id].agent != NO_ID && c.nodes[r.id].agent != h.agent.id)
         || (r.id in c.reservations && c.reservations[r.id] != NO_ID && c.reservations[r.id] != h.agent.id)))
  }

  lemma VerdictMeans(c: Controller, h: Report)
    ensures Judge(c, h) == Rejected <==> !Expected(c, h) || (!Repeated(c, h) && SomeForeign(c, h))
    ensures Judge(c, h) == Ignored <==> Expected(c, h) && Repeated(c, h)
  {
    ForeignMeans(c, h);
    hide GoodNodes, SomeForeign;
  }

  lemma ForeignMeans(c: Controller, h: Report)
    ensures SomeForeign(c, h) <==> !GoodNodes(c, h.agent.id, h.nodes)
  {
    if GoodNodes(c, h.agent.id, h.nodes) {
      forall i, j | 0 <= i < j < |h.nodes| ensures h.nodes[i].id != h.nodes[j].id { assert !BadAt(c, h.agent.id, h.nodes, j); }
      forall r | r in h.nodes ensures !Foreign(c, h.agent.id, r) {
        var i :| 0 <= i < |h.nodes| && h.nodes[i] == r;
        assert !BadAt(c, h.agent.id, h.nodes, i);
      }
    } else {
      var i :| 0 <= i < |h.nodes| && BadAt(c, h.agent.id, h.nodes, i);
      assert h.nodes[i] in h.nodes;
    }
  }

  // Another instance of a known Agent: one that names another start.
  ghost predicate OtherInstance(agents: map<ID, AgentRecord>, r: AgentReport) {
    r.id in agents && r.startedAt != 0 && r.startedAt != agents[r.id].startedAt
  }

  // It is refused without a name or address, and as another instance of an Agent that is online or newer.
  ghost predicate MayRegister(agents: map<ID, AgentRecord>, r: AgentReport, now: Time) {
    && r.id != NO_ID && r.hasUrl
    && (OtherInstance(agents, r) ==>
          (var a := agents[r.id]; a.startedAt < r.startedAt && !(a.online && (a.lastSeen == 0 || now <= a.lastSeen + STALE_AFTER))))
  }

  /** A new instance has none of the nodes, reservations and snapshots of the one before. */
  ghost predicate NowRegistered(c: Controller, r: AgentReport, now: Time, d: Controller) {
    var other, known := OtherInstance(c.agents, r), r.id in c.agents;
    && r.id in d.agents && d.agents == c.agents[r.id := d.agents[r.id]]
    && (var started := if r.startedAt != 0 then r.startedAt else if known then c.agents[r.id].startedAt else 0;
        var active := if other then r.activeNodes else if known then MaxInt(r.activeNodes, c.agents[r.id].activeNodes)
                      else r.activeNodes + |set id | id in c.reservations && c.reservations[id] == r.id|;
        d.agents[r.id] == AgentRecord(if started == 0 then now else started, now, true, MaxInt(0, active), r.capacity))
    && (!other ==> d.nodes == c.nodes && d.reservations == c.reservations)
    && (other ==> d.nodes.Keys == c.nodes.Keys && forall id :: id in d.nodes ==> (var n := c.nodes[id];
          d.nodes[id] == if n.agent == r.id && !n.state.Stopped? && !n.state.Failed? then n.(state := Failed, lastSeen := now) else n))
    && (other ==> d.reservations == map id | id in c.reservations && c.reservations[id] != r.id :: c.reservations[id])
    && (forall id :: id != r.id ==> (id in d.snapshots <==> id in c.snapshots) && (id in c.snapshots ==> d.snapshots[id] == c.snapshots[id]))
    && (var last := if r.id in c.snapshots && !other then c.snapshots[r.id] else 0;
        if last < r.at then r.id in d.snapshots && d.snapshots[r.id] == r.at
        else (r.id in d.snapshots <==> r.id in c.snapshots && !other) && (r.id in d.snapshots ==> d.snapshots[r.id] == last))
  }

  lemma RegisterMeans(c: Controller, r: AgentReport, now: Time)
    ensures CanRegister(c, r, now) <==> MayRegister(c.agents, r, now)
    ensures CanRegister(c, r, now) ==> NowRegistered(c, r, now, Register(c, r, now))
    ensures !CanRegister(c, r, now) ==> Register(c, r, now) == c
  {
    ReservedIs(c.reservations, r.id);
    var d := Register(c, r, now);
    if CanRegister(c, r, now) && OtherInstance(c.agents, r) {
      assert d.reservations == map id | id in c.reservations && c.reservations[id] != r.id :: c.reservations[id];
    }
  }

  lemma HeartbeatBacked(c: Controller, h: Report, now: Time)
    requires Backed(c)
    ensures Backed(Heartbeat(c, h, now))
  {
    if Judge(c, h) == Accepted {
      var agent, rs := h.agent.id, Usable(c, h);
      var listed := ApplyNodes(c, agent, rs, now);
      ReleasedCount(c, agent, rs, now);
      ApplyNodesReservations(c, agent, rs, now);
      ApplyNodesForward(c, agent, rs, now);
      var d := Heartbeat(c, h, now);
      forall a | a in d.agents ensures |ReservedFor(d.reservations, a)| <= d.agents[a].activeNodes {
        FewerReservations(c.reservations, d.reservations, a);
      }
    }
  }

  lemma OpBacked(c: Controller, op: Op)
    requires Backed(c)
    ensures Backed(Apply(c, op))
  {
    var d := Apply(c, op);
    match op {
      case OpHeartbeat(h, now) => HeartbeatBacked(c, h, now);
      case OpReserve(node, target, choice, now) =>
        if d != c { TakeBacked(c, node, choice); }
      case OpRelease(node) => ReleaseBacked(c, node);
      case OpRegister(r, now) => RegisterBacked(c, r, now);
      case _ =>
        forall a | a in d.agents ensures |ReservedFor(d.reservations, a)| <= d.agents[a].activeNodes {
          FewerReservations(c.reservations, d.reservations, a);
        }
    }
  }

  lemma RegisterBacked(c: Controller, r: AgentReport, now: Time)
    requires Backed(c)
    ensures Backed(Register(c, r, now))
  {
    var d := Register(c, r, now);
    forall a | a in d.agents ensures |ReservedFor(d.reservations, a)| <= d.agents[a].activeNodes {
      FewerReservations(c.reservations, d.reservations, a);
      if a !in c.agents { assert ReservedFor(c.reservations, a) == {}; }
      if CanRegister(c, r, now) && Restarted(c, r) && a == r.id {
        assert ReservedFor(d.reservations, a) == {};
      }
    }
  }

  lemma TakeBacked(c: Controller, node: ID, agent: ID)
    requires Backed(c) && node !in c.reservations && agent in c.agents
    ensures Backed(Take(c, node, agent))
  {
    var d := Take(c, node, agent);
    forall a | a in d.agents ensures |ReservedFor(d.reservations, a)| <= d.agents[a].activeNodes {
      TakeReserves(c.reservations, node, agent, a);
    }
  }

  lemma TakeReserves(reservations: map<ID, ID>, node: ID, agent: ID, a: ID)
    requires node !in reservations
    ensures |ReservedFor(reservations[node := agent], a)| == |ReservedFor(reservations, a)| + if a == agent then 1 else 0
  {
    var more := if a == agent then {node} else {};
    assert ReservedFor(reservations[node := agent], a) == ReservedFor(reservations, a) + more;
  }

  lemma ReleaseBacked(c: Controller, node: ID)
    requires Backed(c)
    ensures Backed(Release(c, node))
  {
    var d := Release(c, node);
    var agent := ReservationOf(c, node);
    forall a | a in d.agents ensures |ReservedFor(d.reservations, a)| <= d.agents[a].activeNodes {
      ReleaseReserves(c.reservations, node, a);
    }
  }

  lemma ReleaseReserves(reservations: map<ID, ID>, node: ID, a: ID)
    ensures |ReservedFor(reservations - {node}, a)|
            == |ReservedFor(reservations, a)| - if node in reservations && reservations[node] == a then 1 else 0
  {
    var less := if node in reservations && reservations[node] == a then {node} else {};
    assert ReservedFor(reservations - {node}, a) == ReservedFor(reservations, a) - less;
    assert less <= ReservedFor(reservations, a);
  }

  /** Reachable states have an exact index and backed reservations. */
  lemma {:induction false} Reachable(ops: seq<Op>)
    ensures IndexExact(Run(EMPTY, ops)) && Backed(Run(EMPTY, ops))
  {
    if ops != [] {
      Reachable(ops[..|ops| - 1]);
      OpIndex(Run(EMPTY, ops[..|ops| - 1]), ops[|ops| - 1]);
      OpBacked(Run(EMPTY, ops[..|ops| - 1]), ops[|ops| - 1]);
    } else {
      assert forall a :: ReservedFor(EMPTY.reservations, a) == {};
    }
  }

  /** In every reachable state, giving a reservation back takes exactly one slot off its
      Agent: the guard against a negative count never fires. */
  lemma ReleaseNeverClamps(ops: seq<Op>, node: ID)
    requires node in Run(EMPTY, ops).reservations
    ensures var c := Run(EMPTY, ops);
            var agent := c.reservations[node];
            agent in c.agents && c.agents[agent].activeNodes >= 1
            && Release(c, node).agents[agent].activeNodes == c.agents[agent].activeNodes - 1
  {
    Reachable(ops);
    var c := Run(EMPTY, ops);
    var agent := c.reservations[node];
    SubsetSize({node}, ReservedFor(c.reservations, agent));
  }

  /** Reserving never takes an Agent above a positive capacity. */
  lemma ReserveRespectsCapacity(c: Controller, node: ID, target: ID, choice: ID, now: Time, a: ID)
    requires a in c.agents
    ensures var d := Apply(c, OpReserve(node, target, choice, now));
            d.agents[a] == c.agents[a] ||
            (d.agents[a].capacity > 0 ==> d.agents[a].activeNodes <= d.agents[a].capacity)
  {
  }

  // ------------------------------------------------------- program's form

  // Share of an Agent in use once `additional` more peers are placed on it.
  function Utilization(a: AgentRecord, additional: int): real {
    var occupied := (a.activeNodes + additional) as real;
    if a.capacity <= 0 then occupied else occupied / a.capacity as real
  }

  ghost predicate UpAt(a: AgentRecord, now: Time) { a.online && (a.lastSeen == 0 || now <= a.lastSeen + STALE_AFTER) }

  // An Agent that may get one more Peer: online, the one asked for if any, and below a positive capacity.
  ghost predicate Room(agents: map<ID, AgentRecord>, id: ID, target: ID, now: Time) {
    id in agents && (target == NO_ID || id == target) && UpAt(agents[id], now)
    && (agents[id].capacity <= 0 || agents[id].activeNodes < agents[id].capacity)
  }

  // Shares in use, compared without dividing. An Agent without a capacity counts its Peers.
  ghost function Whole(a: AgentRecord): int { if a.capacity <= 0 then 1 else a.capacity }

  ghost predicate LessLoaded(id1: ID, a: AgentRecord, id2: ID, b: AgentRecord) {
    var ahead, behind := (a.activeNodes + 1) * Whole(b), (b.activeNodes + 1) * Whole(a);
    var left, right := a.activeNodes * Whole(b), b.activeNodes * Whole(a);
    ahead < behind || (ahead == behind && (left < right || (left == right && id1 < id2)))
  }

  lemma SharesCompare(x: int, p: int, y: int, q: int)
    requires p > 0 && q > 0
    ensures x as real / p as real < y as real / q as real <==> x * q < y * p
    ensures x as real / p as real == y as real / q as real <==> x * q == y * p
  {
    var a, b := x as real / p as real, y as real / q as real;
    assert a * p as real == x as real && b * q as real == y as real;
    assert (x * q) as real == a * (p as real * q as real) && (y * p) as real == b * (p as real * q as real);
    assert p as real * q as real > 0.0;
  }

  lemma BeforeIsLessLoaded(id1: ID, a: AgentRecord, id2: ID, b: AgentRecord)
    ensures Before(id1, a, id2, b) <==> LessLoaded(id1, a, id2, b)
  {
    OrderOfShares(id1, a.activeNodes, Whole(a), id2, b.activeNodes, Whole(b));
    ShareInUse(a, 0);
    ShareInUse(a, 1);
    ShareInUse(b, 0);
    ShareInUse(b, 1);
    hide Utilization, Whole;
  }

  // Nobody else with room uses less.
  ghost predicate Least(agents: map<ID, AgentRecord>, best: ID, target: ID, now: Time) {
    && best in agents
    && forall a :: a != NO_ID && a != best && Room(agents, a, target, now) ==> LessLoaded(best, agents[best], a, agents[a])
  }

  lemma FirstIsLeast(c: Controller, best: ID, target: ID, now: Time)
    requires Candidate(c, best, target, now)
    requires forall a :: a != NO_ID && a != best && Candidate(c, a, target, now) ==> Before(best, c.agents[best], a, c.agents[a])
    ensures Least(c.agents, best, target, now)
  {
    forall a | a != NO_ID && a != best && Room(c.agents, a, target, now) ensures LessLoaded(best, c.agents[best], a, c.agents[a]) {
      RoomIs(c, a, target, now);
      BeforeIsLessLoaded(best, c.agents[best], a, c.agents[a]);
    }
  }

  lemma RoomIs(c: Controller, id: ID, target: ID, now: Time)
    ensures Room(c.agents, id, target, now) <==> Candidate(c, id, target, now)
    ensures Room(c.agents, id, target, now) <==> (id in c.agents && (target == NO_ID || id == target) && Online(c.agents[id], now)
                                                  && !(c.agents[id].capacity > 0 && c.agents[id].activeNodes >= c.agents[id].capacity))
  {
  }

  lemma BeforeOne(id1: ID, a: AgentRecord, id2: ID, b: AgentRecord)
    requires id1 != id2 && !Before(id1, a, id2, b)
    ensures Before(id2, b, id1, a)
  {
  }

  // A new first one is before all that the old one was before.
  lemma BeforeAll(c: Controller, id: ID, best: ID, target: ID, now: Time, seen: set<ID>)
    requires id in c.agents && best in c.agents && Before(id, c.agents[id], best, c.agents[best])
    requires forall a :: a in seen && a != NO_ID && a != best && Candidate(c, a, target, now) ==> Before(best, c.agents[best], a, c.agents[a])
    ensures forall a :: a in seen && a != NO_ID && a != id && Candidate(c, a, target, now) ==> Before(id, c.agents[id], a, c.agents[a])
  {
    hide Candidate, Utilization;
    forall a | a in seen && a != NO_ID && a != id && a in c.agents && Candidate(c, a, target, now) ensures Before(id, c.agents[id], a, c.agents[a]) {
      assert a != best ==> Before(best, c.agents[best], a, c.agents[a]);
    }
  }

  lemma ShareInUse(a: AgentRecord, additional: int)
    ensures Whole(a) > 0 && Utilization(a, additional) == (a.activeNodes + additional) as real / Whole(a) as real
  {
  }

  lemma OrderOfShares(id1: ID, x: int, p: int, id2: ID, y: int, q: int)
    requires p > 0 && q > 0
    ensures var ahead, behind := (x + 1) as real / p as real, (y + 1) as real / q as real;
      var left, right := x as real / p as real, y as real / q as real;
      (if ahead != behind then ahead < behind else if left != right then left < right else id1 < id2) <==>
      ((x + 1) * q < (y + 1) * p || ((x + 1) * q == (y + 1) * p && (x * q < y * p || (x * q == y * p && id1 < id2))))
  {
    SharesCompare(x + 1, p, y + 1, q);
    SharesCompare(x, p, y, q);
  }

  // Placement order: look one peer ahead, then at the present load, then at the name.
  predicate Before(id1: ID, a: AgentRecord, id2: ID, b: AgentRecord) {
    if Utilization(a, 1) != Utilization(b, 1) then Utilization(a, 1) < Utilization(b, 1)
    else if Utilization(a, 0) != Utilization(b, 0) then Utilization(a, 0) < Utilization(b, 0)
    else id1 < id2
  }

  class State {
    var agents: map<ID, AgentRecord>
    var nodes: map<ID, Node>
    var activeNodeIDs: set<ID>
    var reservations: map<ID, ID>
    var agentSnapshots: map<ID, Time>

    ghost function View(): Controller
      reads this
    {
      Controller(agents, nodes, activeNodeIDs, reservations, agentSnapshots)
    }

    constructor ()
      ensures View() == EMPTY
    {
      agents, nodes, activeNodeIDs, reservations, agentSnapshots := map[], map[], {}, map[], map[];
    }

    method PutNode(id: ID, node: Node)
      modifies this`nodes, this`activeNodeIDs
      ensures View() == SetNode(old(View()), id, node)
    {
      nodes := nodes[id := node];
      if Live(node) { activeNodeIDs := activeNodeIDs + {id}; } else { activeNodeIDs := activeNodeIDs - {id}; }
    }

    method CountReservations(agent: ID) returns (count: nat)
      ensures count == |ReservedFor(reservations, agent)|
      ensures count == |set id | id in reservations && reservations[id] == agent|
    {
      count := 0;
      var todo := reservations.Keys;
      ghost var counted: set<ID> := {};
      while todo != {}
        invariant todo <= reservations.Keys
        invariant counted == (set id | id in reservations && id !in todo && reservations[id] == agent)
        invariant count == |counted|
        decreases todo
      {
        var id :| id in todo;
        todo := todo - {id};
        if reservations[id] == agent {
          counted := counted + {id};
          count := count + 1;
        }
      }
      assert counted == ReservedFor(reservations, agent);
      ReservedIs(reservations, agent);
    }

    method DropReservations(agent: ID)
      modifies this`reservations
      ensures reservations == old(reservations) - ReservedFor(old(reservations), agent)
    {
      ghost var before := reservations;
      var todo := reservations.Keys;
      while todo != {}
        invariant todo <= reservations.Keys <= before.Keys
        invariant forall id :: id in before ==>
                    (id in reservations <==> id in todo || before[id] != agent)
        invariant forall id :: id in reservations ==> reservations[id] == before[id]
        decreases todo
      {
        var id :| id in todo;
        todo := todo - {id};
        if reservations[id] == agent { reservations := reservations - {id}; }
      }
      assert reservations == before - ReservedFor(before, agent);
    }

    method FailNodes(agent: ID, now: Time)
      modifies this`nodes, this`activeNodeIDs
      ensures nodes == map id | id in old(nodes) :: FailNode(old(nodes)[id], agent, now)
      ensures activeNodeIDs == old(activeNodeIDs) -
                (set id | id in old(nodes) && old(nodes)[id].agent == agent && Live(old(nodes)[id]))
    {
      ghost var before := nodes;
      ghost var failed: set<ID> := {};
      var todo := nodes.Keys;
      while todo != {}
        invariant todo <= nodes.Keys == before.Keys
        invariant forall id :: id in todo ==> nodes[id] == before[id]
        invariant forall id :: id in before.Keys - todo ==> nodes[id] == FailNode(before[id], agent, now)
        invariant forall id :: id in failed <==> id in before && id !in todo && before[id].agent == agent && Live(before[id])
        invariant activeNodeIDs == old(activeNodeIDs) - failed
        decreases todo
      {
        var id :| id in todo;
        todo := todo - {id};
        var node := nodes[id];
        if node.agent == agent && node.state != Stopped && node.state != Failed {
          failed := failed + {id};
          PutNode(id, node.(state := Failed, lastSeen := now));
        }
      }
      assert failed == set id | id in before && before[id].agent == agent && Live(before[id]);
    }

    method DropAll(agent: ID, now: Time)
      modifies this`nodes, this`activeNodeIDs, this`reservations, this`agentSnapshots
      ensures View() == DropInstance(old(View()), agent, now)
    {
      DropReservations(agent);
      FailNodes(agent, now);
      agentSnapshots := agentSnapshots - {agent};
    }

    /** Registration: refused for a live or newer other instance; a later instance ends
        everything the previous one had. */
    method RegisterAgent(report: AgentReport, now: Time) returns (ok: bool)
      modifies this
      ensures View() == Register(old(View()), report, now)
      ensures ok <==> CanRegister(old(View()), report, now)
      ensures ok <==> MayRegister(old(agents), report, now)
      ensures !ok ==> View() == old(View())
      ensures ok ==> NowRegistered(old(View()), report, now, View())
    {
      RegisterMeans(View(), report, now);
      hide NowRegistered, MayRegister, DropInstance;
      if report.id == NO_ID || !report.hasUrl { return false; }
      var exists_ := report.id in agents;
      var startedAt := report.startedAt;
      if exists_ && startedAt == 0 { startedAt := agents[report.id].startedAt; }
      var restarted := exists_ && startedAt != agents[report.id].startedAt;
      if restarted && (startedAt < agents[report.id].startedAt || Online(agents[report.id], now)) { return false; }
      var active := report.activeNodes;
      if restarted {
        DropAll(report.id, now);
      } else if exists_ {
        active := MaxInt(active, agents[report.id].activeNodes);
      } else {
        var reserved := CountReservations(report.id);
        active := active + reserved;
      }
      if startedAt == 0 { startedAt := now; }
      var last := if report.id in agentSnapshots then agentSnapshots[report.id] else 0;
      if report.at != 0 && last < report.at { agentSnapshots := agentSnapshots[report.id := report.at]; }
      agents := agents[report.id := AgentRecord(startedAt, now, true, MaxInt(0, active), report.capacity)];
      ok := true;
    }

    // Reject empty, repeated or foreign nodes before anything is applied.
    method CheckNodes(agent: ID, rs: seq<NodeReport>) returns (good: bool)
      ensures good <==> GoodNodes(View(), agent, rs)
    {
      var seen: set<ID> := {};
      for i := 0 to |rs|
        invariant seen == IDs(rs[..i])
        invariant forall j :: 0 <= j < i ==> !BadAt(View(), agent, rs, j)
      {
        var r := rs[i];
        var owner := if r.id in nodes then nodes[r.id].agent else NO_ID;
        var reservation := if r.id in reservations then reservations[r.id] else NO_ID;
        if r.id == NO_ID || r.id in seen || (owner != NO_ID && owner != agent)
           || (reservation != NO_ID && reservation != agent)
        {
          assert BadAt(View(), agent, rs, i);
          return false;
        }
        seen := seen + {r.id};
        assert rs[..i + 1] == rs[..i] + [r];
      }
      good := true;
    }

    method KeepExits(rs: seq<NodeReport>) returns (terminal: seq<NodeReport>)
      ensures terminal == Exits(rs)
    {
      terminal := [];
      for i := 0 to |rs|
        invariant terminal == Exits(rs[..i])
      {
        if rs[i].state == Stopped { terminal := terminal + [rs[i]]; }
        assert rs[..i + 1][..i] == rs[..i];
      }
      assert rs[..|rs|] == rs;
    }

    method ListNodes(agent: ID, rs: seq<NodeReport>, now: Time) returns (released: nat, observed: nat)
      modifies this`nodes, this`activeNodeIDs, this`reservations
      ensures View() == ApplyNodes(old(View()), agent, rs, now)
      ensures DistinctIDs(rs) ==> (forall r :: r in rs ==> Listed(old(nodes), nodes, agent, r, now)) && OthersSame(old(nodes), nodes, IDs(rs))
      ensures released == Released(old(View()), agent, rs, now)
      ensures observed == ListedActive(old(View()), agent, rs, now)
    {
      hide Listed, OthersSame, DistinctIDs, ApplyNodes, Released, ListedActive;
      ghost var c := View();
      released, observed := 0, 0;
      ListNothing(c, agent, now);
      for i := 0 to |rs|
        invariant View() == ApplyNodes(c, agent, rs[..i], now)
        invariant released == Released(c, agent, rs[..i], now)
        invariant observed == ListedActive(c, agent, rs[..i], now)
      {
        ghost var d := View();
        ListStep(c, agent, rs, i, now);
        var r := rs[i];
        var node := Node(agent, r.state, if r.lastSeen == 0 then now else r.lastSeen, r.startedAt);
        if node.startedAt == 0 {
          node := node.(startedAt := if r.id in nodes then nodes[r.id].startedAt else now);
        }
        if r.id in nodes {
          var prior := nodes[r.id];
          if prior.state == Stopped && node.state != Stopped {
            node := prior;
          } else if prior.state == Failed && !Ending(node.state) {
            node := prior;
          } else if prior.state == Stopping && !Ending(node.state) {
            node := prior;
          }
        }
        assert node == Merged(d, agent, r, now);
        PutNode(r.id, node);
        if (if r.id in reservations then reservations[r.id] else NO_ID) == agent {
          reservations := reservations - {r.id};
          released := released + 1;
        }
        if !Ending(node.state) { observed := observed + 1; }
      }
      assert rs[..|rs|] == rs;
      if DistinctIDs(rs) { ListingMeans(c, agent, rs, now); }
    }

    method CountObserved(agent: ID) returns (count: nat)
      ensures count == |ObservedActive(View(), agent)|
    {
      count := 0;
      var todo := activeNodeIDs;
      ghost var counted: set<ID> := {};
      while todo != {}
        invariant todo <= activeNodeIDs
        invariant counted == ObservedActive(View(), agent) - todo
        invariant count == |counted|
        decreases todo
      {
        var id :| id in todo;
        todo := todo - {id};
        if id in nodes && Live(nodes[id]) && nodes[id].agent == agent && nodes[id].state != Stopping
           && (if id in reservations then reservations[id] else NO_ID) != agent
        {
          counted := counted + {id};
          count := count + 1;
        }
      }
      assert counted == ObservedActive(View(), agent);
    }

    method StopOmitted(agent: ID, listed: set<ID>, now: Time)
      modifies this`nodes, this`activeNodeIDs
      ensures View() == EndOmitted(old(View()), agent, listed, now)
      ensures agent != NO_ID ==> nodes.Keys == old(nodes.Keys) && forall id :: id in nodes ==> (var n := old(nodes)[id];
        nodes[id] == if n.agent == agent && id !in listed && !n.state.Stopped? && !(id in reservations && reservations[id] == agent)
          then n.(state := Stopped, lastSeen := now) else n)
    {
      hide SetNode, EndOmitted, EndWithin;
      ghost var c := View();
      ghost var done: set<ID> := {};
      var todo := nodes.Keys;
      NoneEnded(c, agent, listed, now);
      while todo != {}
        invariant todo !! done && todo + done == c.nodes.Keys && View() == EndWithin(c, agent, listed, now, done)
        decreases todo
      {
        var id :| id in todo;
        EndStep(c, agent, listed, now, done, id);
        todo, done := todo - {id}, done + {id};
        var node := nodes[id];
        if node.agent != agent { continue; }
        if id !in listed && node.state != Stopped {
          if (if id in reservations then reservations[id] else NO_ID) == agent { continue; }
          PutNode(id, node.(state := Stopped, lastSeen := now));
        }
      }
      assert done == c.nodes.Keys;
      AllEnded(c, agent, listed, now);
      if agent != NO_ID { EndedMeans(c, agent, listed, now); }
    }

    method ReceiveHeartbeat(h: Report, now: Time) returns (verdict: Verdict)
      modifies this
      ensures verdict == Judge(old(View()), h)
      ensures View() == Heartbeat(old(View()), h, now)
      ensures verdict == Rejected <==> !Expected(old(View()), h) || (!Repeated(old(View()), h) && SomeForeign(old(View()), h))
      ensures verdict == Ignored <==> Expected(old(View()), h) && Repeated(old(View()), h)
      ensures verdict != Accepted ==> View() == old(View())
      ensures verdict == Accepted ==> NodesHeard(old(View()), h, now, View())
      ensures verdict == Accepted && old(IndexExact(View())) ==> AgentHeard(old(View()), h, now, View())
    {
      VerdictMeans(View(), h);
      if Judge(View(), h) == Accepted {
        HeartbeatMeans(View(), h, now);
        if IndexExact(View()) { HeartbeatCounts(View(), h, now); }
      }
      hide NodesHeard, AgentHeard, IndexExact, Expected, Repeated, SomeForeign;
      var agent := h.agent.id;
      if agent == NO_ID || agent !in agents { return Rejected; }
      if h.agent.startedAt != 0 && h.agent.startedAt != agents[agent].startedAt { return Rejected; }
      var at := h.agent.at;
      var last := if agent in agentSnapshots then agentSnapshots[agent] else 0;
      var stale := at != 0 && last != 0 && at < last;
      if !h.partial && at != 0 && last != 0 && at <= last { return Ignored; }
      var good := CheckNodes(agent, h.nodes);
      if !good { return Rejected; }
      AcceptHeartbeat(h, stale, now);
      verdict := Accepted;
    }

    method AcceptHeartbeat(h: Report, stale: bool, now: Time)
      requires Judge(View(), h) == Accepted && stale == Stale(View(), h)
      modifies this
      ensures View() == Heartbeat(old(View()), h, now)
    {
      ghost var c := View();
      var agent := h.agent.id;
      var previous := agents[agent];
      var rs := h.nodes;
      if stale { rs := KeepExits(rs); }
      var released, observed := ListNodes(agent, rs, now);
      ghost var listed := View();
      assert listed == ApplyNodes(c, agent, Usable(c, h), now);
      if h.partial { observed := CountObserved(agent); }
      var reserved := CountReservations(agent);
      var record := previous.(activeNodes := MaxInt(0, previous.activeNodes - released));
      if !stale {
        var active := MaxInt(MaxInt(0, h.agent.activeNodes), observed) + reserved;
        record := AgentRecord(previous.startedAt, now, true, active, h.agent.capacity);
      }
      assert record == HeartbeatRecord(c, h, now);
      if !h.partial { StopOmitted(agent, IDs(h.nodes), now); }
      ghost var ended := View();
      assert ended == if h.partial then listed else EndOmitted(listed, agent, IDs(h.nodes), now);
      agents := agents[agent := record];
      if !stale && h.agent.at != 0 { agentSnapshots := agentSnapshots[agent := h.agent.at]; }
    }

    // The best candidate in placement order; the order in which Agents are visited cannot show.
    method Balanced(target: ID, now: Time) returns (best: ID)
      ensures best == NO_ID ==> forall a :: a != NO_ID ==> !Candidate(View(), a, target, now)
      ensures best != NO_ID ==> Candidate(View(), best, target, now)
      ensures best != NO_ID ==>
                (forall a :: a != NO_ID && a != best && Candidate(View(), a, target, now) ==>
                   Before(best, agents[best], a, agents[a]))
      ensures best == NO_ID <==> forall a :: a != NO_ID ==> !Room(agents, a, target, now)
      ensures best != NO_ID ==> Room(agents, best, target, now) && Least(agents, best, target, now)
    {
      hide Before, Least;
      best := NO_ID;
      var todo := agents.Keys;
      while todo != {}
        invariant todo <= agents.Keys
        invariant best == NO_ID ==> forall a :: a != NO_ID && a !in todo ==> !Candidate(View(), a, target, now)
        invariant best != NO_ID ==> Candidate(View(), best, target, now) && best !in todo
        invariant best != NO_ID ==>
                    (forall a :: a != NO_ID && a != best && a !in todo && Candidate(View(), a, target, now) ==>
                       Before(best, agents[best], a, agents[a]))
        decreases todo
      {
        var id :| id in todo;
        todo := todo - {id};
        var a := agents[id];
        if id == NO_ID || (target != NO_ID && id != target) { continue; }
        if !Online(a, now) || (a.capacity > 0 && a.activeNodes >= a.capacity) { continue; }
        if best == NO_ID || Before(id, a, best, agents[best]) {
          if best != NO_ID { BeforeAll(View(), id, best, target, now, agents.Keys - todo - {id}); }
          best := id;
        } else {
          BeforeOne(id, a, best, agents[best]);
        }
      }
      forall a ensures Room(agents, a, target, now) <==> Candidate(View(), a, target, now) { RoomIs(View(), a, target, now); }
      if best != NO_ID { FirstIsLeast(View(), best, target, now); }
    }

    /** Reserve a slot: an existing reservation is kept, otherwise the chosen Agent is a
        candidate, counted up by one and never beyond its capacity. `preferred` stands for
        the seeded random pick; without it the balanced order decides. */
    method TryReserve(node: ID, target: ID, preferred: ID, now: Time) returns (agent: ID, ok: bool)
      modifies this
      ensures node in old(reservations) ==> View() == old(View())
      ensures node !in old(reservations) && ok ==>
                (&& Candidate(old(View()), agent, target, now)
                 && View() == Apply(old(View()), OpReserve(node, target, agent, now))
                 && (agents[agent].capacity > 0 ==> agents[agent].activeNodes <= agents[agent].capacity))
      ensures node !in old(reservations) && !ok ==> View() == old(View())
      ensures node !in old(reservations) && !ok ==> (forall a :: a != NO_ID ==> !Candidate(View(), a, target, now))
      ensures node in old(reservations) ==>
                (agent == reservations[node] && (ok <==> agent in agents && UpAt(agents[agent], now) && (target == NO_ID || agent == target)))
      ensures node !in old(reservations) && ok ==>
                (&& Room(old(agents), agent, target, now) && reservations == old(reservations)[node := agent]
                 && agents == old(agents)[agent := old(agents)[agent].(activeNodes := old(agents)[agent].activeNodes + 1)]
                 && nodes == old(nodes) && agentSnapshots == old(agentSnapshots))
      ensures node !in old(reservations) && ok && preferred != NO_ID && Room(old(agents), preferred, target, now) ==> agent == preferred
      ensures node !in old(reservations) && ok && !(preferred != NO_ID && Room(old(agents), preferred, target, now)) ==>
                Least(old(agents), agent, target, now)
      ensures node !in old(reservations) ==> (ok <==> exists a :: a != NO_ID && Room(old(agents), a, target, now))
    {
      RoomIs(View(), preferred, target, now);
      hide Candidate, Room, Least;
      if node in reservations {
        agent := reservations[node];
        ok := agent in agents && Online(agents[agent], now) && (target == NO_ID || agent == target);
        return;
      }
      agent := Balanced(target, now);
      if agent == NO_ID { return agent, false; }
      RoomIs(View(), agent, target, now);
      if preferred != NO_ID && preferred in agents && (target == NO_ID || preferred == target)
         && Online(agents[preferred], now)
         && !(agents[preferred].capacity > 0 && agents[preferred].activeNodes >= agents[preferred].capacity)
      {
        agent := preferred;
      }
      assert agent != NO_ID && Room(agents, agent, target, now);
      agents := agents[agent := agents[agent].(activeNodes := agents[agent].activeNodes + 1)];
      reservations := reservations[node := agent];
      ok := true;
    }

    method ReleaseReservation(node: ID)
      requires NO_ID !in agents
      modifies this
      ensures View() == Release(old(View()), node)
      ensures nodes == old(nodes) && reservations == old(reservations) - {node}
      ensures node in old(reservations) && old(reservations)[node] in old(agents) ==>
        (var a := old(reservations)[node]; var was := old(agents)[a];
         agents == old(agents)[a := was.(activeNodes := was.activeNodes - if was.activeNodes > 0 then 1 else 0)])
      ensures node !in old(reservations) || old(reservations)[node] !in old(agents) ==> agents == old(agents)
    {
      var agent := NO_ID;
      if node in reservations {
        agent := reservations[node];
        reservations := reservations - {node};
      }
      if agent in agents && agents[agent].activeNodes > 0 {
        agents := agents[agent := agents[agent].(activeNodes := agents[agent].activeNodes - 1)];
      }
    }

    method RecordCreatedNode(agent: ID, instance: Time, id: ID, node: Node) returns (ok: bool)
      modifies this
      ensures View() == RecordCreated(old(View()), agent, instance, id, node)
      ensures ok <==> agent in old(agents) && old(agents)[agent].startedAt == instance
      ensures ok && (id in old(nodes) ==> (old(nodes)[id].state.Starting? || old(nodes)[id].state.Ready?) && old(nodes)[id].lastSeen < node.lastSeen)
        ==> nodes == old(nodes)[id := node]
      ensures !ok || (id in old(nodes) && !((old(nodes)[id].state.Starting? || old(nodes)[id].state.Ready?) && old(nodes)[id].lastSeen < node.lastSeen))
        ==> View() == old(View())
    {
      if agent !in agents || agents[agent].startedAt != instance { return false; }
      if id !in nodes || (!Ending(nodes[id].state) && nodes[id].lastSeen < node.lastSeen) { PutNode(id, node); }
      ok := true;
    }

    // Agents that were not heard for longer than the age allowed are offline.
    method MarkStaleAgents(now: Time, maxAge: Time) returns (changed: bool)
      modifies this`agents
      ensures View() == MarkStale(old(View()), now, maxAge)
      ensures agents.Keys == old(agents).Keys && (changed <==> agents != old(agents))
      ensures forall id :: id in agents ==> agents[id].(online := old(agents)[id].online) == old(agents)[id]
      ensures forall id :: id in agents ==> (agents[id].online <==> old(agents)[id].online && now <= old(agents)[id].lastSeen + maxAge)
    {
      changed := false;
      ghost var before := agents;
      var todo := agents.Keys;
      while todo != {}
        invariant todo <= agents.Keys == before.Keys
        invariant forall id :: id in todo ==> agents[id] == before[id]
        invariant forall id :: id in agents && id !in todo ==>
          agents[id] == if before[id].lastSeen + maxAge < now then before[id].(online := false) else before[id]
        invariant changed <==> exists id :: id in agents && agents[id] != before[id]
        decreases todo
      {
        var id :| id in todo;
        todo := todo - {id};
        if agents[id].lastSeen + maxAge < now && agents[id].online {
          agents, changed := agents[id := agents[id].(online := false)], true;
          assert agents[id] != before[id];
        }
      }
    }

    method MarkNodeStopping(id: ID, now: Time)
      modifies this
      ensures View() == MarkStopping(old(View()), id, now)
      ensures reservations == old(reservations) - {id} && agents == old(agents)
      ensures nodes == if id in old(nodes) && (old(nodes)[id].state.Starting? || old(nodes)[id].state.Ready?)
        then old(nodes)[id := old(nodes)[id].(state := Stopping, lastSeen := now)] else old(nodes)
    {
      if id in nodes && !Ending(nodes[id].state) {
        PutNode(id, nodes[id].(state := Stopping, lastSeen := now));
      }
      reservations := reservations - {id};
    }
  }
}
