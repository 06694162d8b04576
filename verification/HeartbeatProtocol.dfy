/** Agreement between one Agent and the Controller about completed exits.

    The Agent stops repeating a completed exit once the Controller has acknowledged it.
    Requests may be lost, delayed, repeated or crossed, responses may be lost, and the
    Controller may restart with an empty memory. A request does not outlive a restart.
 */
module HeartbeatProtocol {
  import opened Model
  import A = AgentLifecycle
  import C = ControllerState

  // `omitted` is not sent: it names the processes the Agent left out as acknowledged.
  datatype Message =
    | Registration(epoch: nat, at: Time, activeNodes: nat)
    | Beat(epoch: nat, at: Time, activeNodes: nat, nodes: seq<C.NodeReport>, omitted: set<ID>)

  datatype Reply = Ok | Conflict

  datatype Exchange = Exchange(message: Message, reply: Option<Reply>)

  // One captured snapshot, sent in several batches under the heartbeat lock.
  datatype Round = Round(epoch: nat, at: Time, activeNodes: nat, rest: seq<C.NodeReport>, omitted: set<ID>)

  // `epoch` counts Controller restarts; `knownSince` is the capture time of the
  // registration that made the Agent known to the running Controller.
  datatype World = World(
    self: ID, instance: Time,
    agent: A.Agent, acked: set<ID>, registered: bool, clock: Time,
    round: Option<Round>, exchange: Option<Exchange>,
    messages: set<Message>, epoch: nat, controller: C.Controller, knownSince: Time)

  datatype Step =
    | AgentWork(step: A.Step)
    | SendRegistration
    | BeginRound(nodes: seq<C.NodeReport>)
    | SendBatch(count: nat)
    | Receive
    | Abandon
    | Deliver(message: Message, now: Time)
    | ControllerWork(op: C.Op)
    | Restart

  predicate SuccessfullyStopped(p: A.Process) { A.Settled(p) && p.state.Stopped? }

  function Acknowledged(w: World): set<ID> {
    set id | id in w.acked && id in w.agent.processes && SuccessfullyStopped(w.agent.processes[id])
  }

  // The snapshot lists every process once, except acknowledged completed exits, with the
  // state it has at the capture.
  ghost predicate IsSnapshot(w: World, nodes: seq<C.NodeReport>) {
    && (forall id :: id in w.agent.processes && id !in Acknowledged(w) ==> id in C.IDs(nodes))
    && (forall r :: r in nodes ==> r.id in w.agent.processes && r.id !in Acknowledged(w)
                                   && r.state == w.agent.processes[r.id].state)
  }

  function ReportOf(w: World, m: Message): C.AgentReport {
    C.AgentReport(w.self, true, w.instance, m.at, m.activeNodes, w.agent.limit)
  }

  function HeartbeatOf(w: World, m: Message): C.Report
    requires m.Beat?
  {
    C.Report(ReportOf(w, m), m.nodes, true)
  }

  predicate IsSelfRegistration(w: World, op: C.Op) { op.OpRegister? && op.report.id == w.self }

  ghost predicate Enabled(w: World, step: Step) {
    match step
    case AgentWork(s) => A.Enabled(w.agent, s)
    case SendRegistration => w.exchange.None? && w.round.None? && !w.registered
    case BeginRound(nodes) => w.exchange.None? && w.round.None? && w.registered && IsSnapshot(w, nodes)
    case SendBatch(count) => w.exchange.None? && w.round.Some? && count <= |w.round.value.rest|
    case Receive => w.exchange.Some? && w.exchange.value.reply.Some?
    case Abandon => w.exchange.Some?
    case Deliver(m, _) => m in w.messages && m.epoch == w.epoch
    case ControllerWork(op) => !IsSelfRegistration(w, op)
    case Restart => true
  }

  function Sent(w: World, m: Message): World {
    w.(messages := w.messages + {m}, exchange := Some(Exchange(m, None)))
  }

  function Delivered(w: World, m: Message, now: Time): World {
    var op := if m.Registration? then C.OpRegister(ReportOf(w, m), now) else C.OpHeartbeat(HeartbeatOf(w, m), now);
    var accepted := if m.Registration? then C.CanRegister(w.controller, ReportOf(w, m), now)
                    else C.Judge(w.controller, HeartbeatOf(w, m)) != C.Rejected;
    var after := C.Apply(w.controller, op);
    w.(controller := after,
       knownSince := if w.self !in w.controller.agents && w.self in after.agents then m.at else w.knownSince,
       exchange := if w.exchange.Some? && w.exchange.value.message == m && w.exchange.value.reply.None?
                   then Some(Exchange(m, Some(if accepted then Ok else Conflict))) else w.exchange)
  }

  // The response to the outstanding request reaches the Agent.
  function Received(w: World): World
    requires w.exchange.Some? && w.exchange.value.reply.Some?
  {
    var m, ok := w.exchange.value.message, w.exchange.value.reply.value.Ok?;
    var free := w.(exchange := None);
    if m.Registration? then
      if ok then free.(acked := {}, registered := true) else free
    else if !ok then free.(round := None, registered := false)
    else
      var heard := set r | r in m.nodes && r.state.Stopped? && r.id in w.agent.processes
                           && SuccessfullyStopped(w.agent.processes[r.id]) :: r.id;
      var rest := if w.round.Some? && |m.nodes| <= |w.round.value.rest| then w.round.value.rest[|m.nodes|..] else [];
      free.(acked := w.acked + heard,
            round := if rest == [] || w.round.None? then None else Some(w.round.value.(rest := rest)))
  }

  function Apply(w: World, step: Step): World
    requires step.AgentWork? ==> A.Enabled(w.agent, step.step)
    requires step.Receive? ==> w.exchange.Some? && w.exchange.value.reply.Some?
    requires step.SendBatch? ==> w.round.Some? && step.count <= |w.round.value.rest|
  {
    match step
    case AgentWork(s) => w.(agent := A.Apply(w.agent, s))
    case SendRegistration =>
      Sent(w.(clock := w.clock + 1), Registration(w.epoch, w.clock + 1, |A.Used(w.agent)|))
    case BeginRound(nodes) =>
      w.(clock := w.clock + 1,
         round := Some(Round(w.epoch, w.clock + 1, |A.Used(w.agent)|, nodes, Acknowledged(w))))
    case SendBatch(count) =>
      var r := w.round.value;
      Sent(w, Beat(w.epoch, r.at, r.activeNodes, r.rest[..count], r.omitted))
    case Receive => Received(w)
    case Abandon => w.(exchange := None, round := None)
    case Deliver(m, now) => Delivered(w, m, now)
    case ControllerWork(op) => w.(controller := C.Apply(w.controller, op))
    case Restart => w.(controller := C.EMPTY, epoch := w.epoch + 1, knownSince := 0)
  }

  function Initial(self: ID, instance: Time, limit: nat): World {
    World(self, instance, A.EMPTY.(limit := limit), {}, false, 0, None, None, {}, 0, C.EMPTY, 0)
  }

  ghost predicate IsRun(ws: seq<World>) {
    && ws != [] && ws[0].self != NO_ID && ws[0].instance != 0
    && ws[0] == Initial(ws[0].self, ws[0].instance, ws[0].agent.limit)
    && forall i :: 0 <= i < |ws| - 1 ==> Next(ws[i], ws[i + 1])
  }

  ghost predicate Next(a: World, b: World) { exists step :: Enabled(a, step) && b == Apply(a, step) }

  // ------------------------------------------------------------ invariant

  predicate Known(w: World) { w.self in w.controller.agents }

  predicate StoppedThere(c: C.Controller, ids: set<ID>) {
    forall id :: id in ids ==> id in c.nodes && c.nodes[id].state.Stopped?
  }

  function Exited(m: Message): set<ID>
    requires m.Beat?
  {
    set r | r in m.nodes && r.state.Stopped? :: r.id
  }

  ghost predicate RegistrationSent(w: World) {
    exists m :: m in w.messages && m.Registration? && m.epoch == w.epoch
  }

  ghost predicate AgentSide(w: World) {
    && A.Coherent(w.agent)
    && (forall id :: id in w.acked ==> id in w.agent.processes && SuccessfullyStopped(w.agent.processes[id]))
    && w.self != NO_ID && w.instance != 0
  }

  ghost predicate ControllerSide(w: World) {
    && (Known(w) ==> w.controller.agents[w.self].startedAt == w.instance)
    && (Known(w) ==> 0 < w.knownSince <= C.Snapshot(w.controller, w.self) && RegistrationSent(w))
    && (!Known(w) ==> C.Snapshot(w.controller, w.self) == 0)
  }

  // Registration and heartbeats exclude each other, so once the running Controller was
  // sent a registration, whatever is outstanding was started under that Controller.
  ghost predicate Serialized(w: World) {
    && (RegistrationSent(w) && w.exchange.Some? ==> w.exchange.value.message.epoch == w.epoch)
    && (RegistrationSent(w) && w.round.Some? ==> w.round.value.epoch == w.epoch)
    && (w.exchange.Some? && w.exchange.value.message.Registration? ==> w.round.None?)
    && (w.round.Some? ==> w.registered)
  }

  // What the Agent has had acknowledged, the Controller that knows it has recorded.
  ghost predicate Agreed(w: World, ids: set<ID>) {
    && (Known(w) ==> StoppedThere(w.controller, ids))
    && (!Known(w) && RegistrationSent(w) ==> ids == {})
  }

  ghost predicate AcksAgree(w: World) {
    && (w.registered ==> Agreed(w, w.acked))
    && (w.round.Some? && w.round.value.epoch == w.epoch ==> Agreed(w, w.round.value.omitted))
    && (w.exchange.Some? && w.exchange.value.message.Beat? && w.exchange.value.message.epoch == w.epoch
        && w.exchange.value.reply == Some(Ok) ==>
          Known(w) && StoppedThere(w.controller, Exited(w.exchange.value.message)))
  }

  predicate BeforeEveryRegistration(w: World, at: Time) {
    forall r :: r in w.messages && r.Registration? && r.epoch == w.epoch ==> at < r.at
  }

  ghost predicate MessageAgrees(w: World, m: Message)
    requires m.Beat?
  {
    if Known(w) then m.at < w.knownSince || StoppedThere(w.controller, m.omitted)
    else m.omitted == {} || BeforeEveryRegistration(w, m.at)
  }

  ghost predicate MessagesAgree(w: World) {
    && (forall m :: m in w.messages ==> 0 < m.at <= w.clock && m.epoch <= w.epoch)
    && (forall m :: m in w.messages && m.Beat? && m.epoch == w.epoch ==> MessageAgrees(w, m))
    && (w.round.Some? ==> 0 < w.round.value.at <= w.clock && w.round.value.epoch <= w.epoch)
    && (w.exchange.Some? ==> w.exchange.value.message in w.messages)
  }

  ghost predicate Inv(w: World) {
    AgentSide(w) && ControllerSide(w) && Serialized(w) && AcksAgree(w) && MessagesAgree(w)
  }

  // ---------------------------------------------------------- preservation

  lemma StoppedIsPermanent(a: A.Agent, step: A.Step, id: ID)
    requires A.Coherent(a) && A.Enabled(a, step)
    requires id in a.processes && SuccessfullyStopped(a.processes[id])
    ensures id in A.Apply(a, step).processes && SuccessfullyStopped(A.Apply(a, step).processes[id])
  {
    assert A.CoherentAt(a, id);
    assert step.Finish? && step.id == id ==> A.OwesFinish(a, id, step.attempt);
  }

  // Anything but a registration of this Agent leaves its record in place and only adds
  // to what is Stopped and to the snapshot time.
  lemma ControllerKeeps(c: C.Controller, op: C.Op, self: ID)
    requires !(op.OpRegister? && op.report.id == self)
    ensures self in C.Apply(c, op).agents <==> self in c.agents
    ensures self in c.agents ==> C.Apply(c, op).agents[self].startedAt == c.agents[self].startedAt
    ensures C.Snapshot(c, self) <= C.Snapshot(C.Apply(c, op), self)
    ensures self !in c.agents ==> C.Snapshot(C.Apply(c, op), self) == C.Snapshot(c, self)
    ensures C.NodesForward(c, C.Apply(c, op))
  {
    C.OpForward(c, op);
    match op
    case OpHeartbeat(h, now) => C.ApplyNodesForward(c, h.agent.id, C.Usable(c, h), now);
    case _ =>
  }

  lemma ControllerMoves(w: World, v: World)
    requires Inv(w) && v == w.(controller := v.controller)
    requires Known(v) <==> Known(w)
    requires Known(w) ==> v.controller.agents[w.self].startedAt == w.controller.agents[w.self].startedAt
    requires C.Snapshot(w.controller, w.self) <= C.Snapshot(v.controller, w.self)
    requires !Known(w) ==> C.Snapshot(v.controller, w.self) == 0
    requires C.NodesForward(w.controller, v.controller)
    ensures Inv(v)
  {
    forall m | m in v.messages && m.Beat? && m.epoch == v.epoch ensures MessageAgrees(v, m) {
      assert MessageAgrees(w, m);
    }
  }

  lemma StepKeepsInv(w: World, step: Step)
    requires Inv(w) && Enabled(w, step)
    ensures Inv(Apply(w, step))
  {
    var v := Apply(w, step);
    match step {
      case AgentWork(s) => AgentWorkKeeps(w, s);
      case SendRegistration => SendRegistrationKeeps(w);
      case BeginRound(nodes) => BeginRoundKeeps(w, nodes);
      case SendBatch(count) => SendBatchKeeps(w, count);
      case Receive => ReceiveKeeps(w);
      case Abandon => AbandonKeeps(w);
      case Deliver(m, now) =>
        if m.Registration? { DeliverRegistrationKeeps(w, m, now); } else { DeliverBeatKeeps(w, m, now); }
      case ControllerWork(op) =>
        ControllerKeeps(w.controller, op, w.self);
        ControllerMoves(w, v);
      case Restart => RestartKeeps(w);
    }
  }

  lemma AgentWorkKeeps(w: World, s: A.Step)
    requires Inv(w) && A.Enabled(w.agent, s)
    ensures Inv(Apply(w, AgentWork(s)))
  {
    var v := Apply(w, AgentWork(s));
    A.StepKeepsCoherent(w.agent, s);
    forall id | id in v.acked ensures id in v.agent.processes && SuccessfullyStopped(v.agent.processes[id]) {
      StoppedIsPermanent(w.agent, s, id);
    }
    SameConversation(w, v);
  }

  // Steps that leave messages, Controller and acknowledgements alone.
  lemma SameConversation(w: World, v: World)
    requires Inv(w) && v == w.(agent := v.agent) && AgentSide(v)
    ensures Inv(v)
  {
    forall m | m in v.messages && m.Beat? && m.epoch == v.epoch ensures MessageAgrees(v, m) {
      assert MessageAgrees(w, m);
    }
  }

  lemma SendRegistrationKeeps(w: World)
    requires Inv(w) && Enabled(w, SendRegistration)
    ensures Inv(Apply(w, SendRegistration))
  {
    var v := Apply(w, SendRegistration);
    var sent := v.exchange.value.message;
    assert sent in v.messages;
    forall m | m in v.messages && m.Beat? && m.epoch == v.epoch ensures MessageAgrees(v, m) {
      assert MessageAgrees(w, m);
    }
  }

  lemma BeginRoundKeeps(w: World, nodes: seq<C.NodeReport>)
    requires Inv(w) && Enabled(w, BeginRound(nodes))
    ensures Inv(Apply(w, BeginRound(nodes)))
  {
    var v := Apply(w, BeginRound(nodes));
    assert Acknowledged(w) <= w.acked;
    forall m | m in v.messages && m.Beat? && m.epoch == v.epoch ensures MessageAgrees(v, m) {
      assert MessageAgrees(w, m);
    }
  }

  lemma SendBatchKeeps(w: World, count: nat)
    requires Inv(w) && Enabled(w, SendBatch(count))
    ensures Inv(Apply(w, SendBatch(count)))
  {
    var v := Apply(w, SendBatch(count));
    assert RegistrationSent(v) <==> RegistrationSent(w) by {
      if RegistrationSent(v) { var r :| r in v.messages && r.Registration? && r.epoch == v.epoch; assert r in w.messages; }
      if RegistrationSent(w) { var r :| r in w.messages && r.Registration? && r.epoch == w.epoch; assert r in v.messages; }
    }
    forall m | m in v.messages && m.Beat? && m.epoch == v.epoch ensures MessageAgrees(v, m) {
      if m in w.messages { assert MessageAgrees(w, m); }
    }
  }

  // Steps of the Agent that send nothing.
  lemma SameMessages(w: World, v: World)
    requires MessagesAgree(w) && v == w.(acked := v.acked, registered := v.registered, round := v.round, exchange := v.exchange)
    requires v.round.Some? ==> w.round.Some? && v.round.value.at == w.round.value.at && v.round.value.epoch == w.round.value.epoch
    requires v.exchange.Some? ==> v.exchange == w.exchange
    ensures MessagesAgree(v) && (RegistrationSent(v) <==> RegistrationSent(w))
  {
    forall m | m in v.messages && m.Beat? && m.epoch == v.epoch ensures MessageAgrees(v, m) {
      assert MessageAgrees(w, m);
    }
  }

  lemma ReceiveKeeps(w: World)
    requires Inv(w) && Enabled(w, Receive)
    ensures Inv(Apply(w, Receive))
  {
    var v := Apply(w, Receive);
    var m := w.exchange.value.message;
    SameMessages(w, v);
    hide MessagesAgree, RegistrationSent;
    if m.Beat? && w.exchange.value.reply == Some(Ok) {
      assert forall id :: id in v.acked && id !in w.acked ==> id in Exited(m);
    }
  }

  lemma AbandonKeeps(w: World)
    requires Inv(w) && Enabled(w, Abandon)
    ensures Inv(Apply(w, Abandon))
  {
    SameMessages(w, Apply(w, Abandon));
    hide MessagesAgree, RegistrationSent;
  }

  lemma DeliverRegistrationKeeps(w: World, r: Message, now: Time)
    requires Inv(w) && Enabled(w, Deliver(r, now)) && r.Registration?
    ensures Inv(Apply(w, Deliver(r, now)))
  {
    var v := Apply(w, Deliver(r, now));
    C.OpForward(w.controller, C.OpRegister(ReportOf(w, r), now));
    assert C.NodesForward(w.controller, v.controller);
    forall m | m in v.messages && m.Beat? && m.epoch == v.epoch ensures MessageAgrees(v, m) {
      assert MessageAgrees(w, m);
    }
  }

  lemma DeliverBeatKeeps(w: World, m: Message, now: Time)
    requires Inv(w) && Enabled(w, Deliver(m, now)) && m.Beat?
    ensures Inv(Apply(w, Deliver(m, now)))
  {
    var v := Apply(w, Deliver(m, now));
    var op := C.OpHeartbeat(HeartbeatOf(w, m), now);
    ControllerKeeps(w.controller, op, w.self);
    var mid := w.(controller := v.controller);
    ControllerMoves(w, mid);
    assert v == mid.(exchange := v.exchange);
    if C.Judge(w.controller, HeartbeatOf(w, m)) == C.Accepted {
      C.AcceptedExitsAreStopped(w.controller, HeartbeatOf(w, m), now);
    }
    forall n | n in v.messages && n.Beat? && n.epoch == v.epoch ensures MessageAgrees(v, n) {
      assert MessageAgrees(mid, n);
    }
  }

  lemma RestartKeeps(w: World)
    requires Inv(w)
    ensures Inv(Apply(w, Restart))
  {
  }

  lemma {:induction false} RunKeepsInv(ws: seq<World>, i: nat)
    requires IsRun(ws) && i < |ws|
    ensures Inv(ws[i])
  {
    if i > 0 {
      RunKeepsInv(ws, i - 1);
      assert Next(ws[i - 1], ws[i - 1 + 1]);
      var step :| Enabled(ws[i - 1], step) && ws[i] == Apply(ws[i - 1], step);
      StepKeepsInv(ws[i - 1], step);
    }
  }

  // --------------------------------------------------------------- results

  /** Main result. A heartbeat captured after the registration that made the Agent known
      omits only processes the Controller already holds as Stopped. */
  lemma OmissionIsSafe(ws: seq<World>, i: nat, m: Message)
    requires IsRun(ws) && i < |ws|
    requires m.Beat? && m in ws[i].messages && m.epoch == ws[i].epoch
    requires C.Judge(ws[i].controller, HeartbeatOf(ws[i], m)) == C.Accepted
    requires ws[i].knownSince <= m.at
    ensures StoppedThere(ws[i].controller, m.omitted)
  {
    RunKeepsInv(ws, i);
    assert MessageAgrees(ws[i], m);
  }

  /** In particular every heartbeat the Controller does not treat as stale is safe. */
  lemma FreshOmissionIsSafe(ws: seq<World>, i: nat, m: Message)
    requires IsRun(ws) && i < |ws|
    requires m.Beat? && m in ws[i].messages && m.epoch == ws[i].epoch
    requires C.Judge(ws[i].controller, HeartbeatOf(ws[i], m)) == C.Accepted
    requires !C.Stale(ws[i].controller, HeartbeatOf(ws[i], m))
    ensures StoppedThere(ws[i].controller, m.omitted)
  {
    RunKeepsInv(ws, i);
    OmissionIsSafe(ws, i, m);
  }

  // Without a restart, whoever is registered is known and captured later than that.
  ghost predicate SinceKnown(w: World) {
    && w.knownSince <= w.clock
    && (w.registered ==> Known(w))
    && (w.round.Some? ==> w.knownSince <= w.round.value.at)
    && (w.exchange.Some? && w.exchange.value.message.Registration? && w.exchange.value.reply == Some(Ok) ==> Known(w))
    && forall m :: m in w.messages && m.Beat? ==> Known(w) && w.knownSince <= m.at
  }

  // Only successfully stopped processes are ever left out.
  ghost predicate OmitsExits(w: World) {
    && (w.round.Some? ==> AllStopped(w.agent, w.round.value.omitted))
    && forall m :: m in w.messages && m.Beat? ==> AllStopped(w.agent, m.omitted)
  }

  predicate AllStopped(a: A.Agent, ids: set<ID>) { forall id :: id in ids ==> id in a.processes && SuccessfullyStopped(a.processes[id]) }

  lemma StepKeepsSinceKnown(w: World, step: Step)
    requires Inv(w) && Enabled(w, step) && w.epoch == 0 && SinceKnown(w)
    ensures Apply(w, step).epoch == 0 ==> SinceKnown(Apply(w, step))
  {
    hide AgentSide, AcksAgree, MessageAgrees;
    match step {
      case ControllerWork(op) => ControllerKeeps(w.controller, op, w.self);
      case Deliver(m, now) => if m.Beat? { ControllerKeeps(w.controller, C.OpHeartbeat(HeartbeatOf(w, m), now), w.self); }
      case _ =>
    }
  }

  lemma StepKeepsOmits(w: World, step: Step)
    requires Inv(w) && Enabled(w, step) && OmitsExits(w)
    ensures OmitsExits(Apply(w, step))
  {
    hide ControllerSide, Serialized, AcksAgree, MessagesAgree;
    if step.AgentWork? {
      forall id | id in w.agent.processes && SuccessfullyStopped(w.agent.processes[id])
        ensures id in Apply(w, step).agent.processes && SuccessfullyStopped(Apply(w, step).agent.processes[id])
      {
        StoppedIsPermanent(w.agent, step.step, id);
      }
    }
  }

  lemma NothingYet(self: ID, instance: Time, limit: nat)
    ensures OmitsExits(Initial(self, instance, limit)) && SinceKnown(Initial(self, instance, limit))
  {
  }

  lemma EpochsGrow(w: World, step: Step)
    requires Enabled(w, step)
    ensures Apply(w, step).epoch >= w.epoch
  {
  }

  lemma {:induction false} RunRemembers(ws: seq<World>, i: nat)
    requires IsRun(ws) && i < |ws|
    ensures OmitsExits(ws[i]) && (ws[i].epoch == 0 ==> SinceKnown(ws[i]))
  {
    hide Inv, Apply, OmitsExits, SinceKnown;
    if i == 0 {
      NothingYet(ws[0].self, ws[0].instance, ws[0].agent.limit);
    } else {
      RunRemembers(ws, i - 1);
      RunKeepsInv(ws, i - 1);
      assert Next(ws[i - 1], ws[i - 1 + 1]);
      var step :| Enabled(ws[i - 1], step) && ws[i] == Apply(ws[i - 1], step);
      StepKeepsOmits(ws[i - 1], step);
      EpochsGrow(ws[i - 1], step);
      if ws[i].epoch == 0 { StepKeepsSinceKnown(ws[i - 1], step); }
    }
  }

  ghost predicate ListsExit(nodes: seq<C.NodeReport>, id: ID) { exists r :: r in nodes && r.id == id && r.state.Stopped? }

  /** Exactly which omissions can be wrong: those of a heartbeat captured before the
      registration that the restarted Controller knows the Agent by, which that Controller
      treats as stale. And they do not last: what was wrongly omitted is not acknowledged
      any more, so every heartbeat the registered Agent captures from now on repeats it. */
  lemma WrongOmissionIsRepeated(ws: seq<World>, i: nat, m: Message, id: ID)
    requires IsRun(ws) && i < |ws|
    requires m.Beat? && m in ws[i].messages && m.epoch == ws[i].epoch
    requires C.Judge(ws[i].controller, HeartbeatOf(ws[i], m)) == C.Accepted
    requires id in m.omitted && !(id in ws[i].controller.nodes && ws[i].controller.nodes[id].state.Stopped?)
    ensures ws[i].epoch > 0 && m.at < ws[i].knownSince && C.Stale(ws[i].controller, HeartbeatOf(ws[i], m))
    ensures forall nodes :: ws[i].registered && IsSnapshot(ws[i], nodes) ==> ListsExit(nodes, id)
  {
    var w := ws[i];
    RunKeepsInv(ws, i);
    RunRemembers(ws, i);
    assert !StoppedThere(w.controller, m.omitted);
    if m.at >= w.knownSince { OmissionIsSafe(ws, i, m); }
    forall nodes | w.registered && IsSnapshot(w, nodes) ensures ListsExit(nodes, id) {
      assert id !in w.acked;
      assert id in C.IDs(nodes);
    }
  }

  /** Whatever it omits, a heartbeat never touches a node it does not list. */
  lemma {:induction false} UnlistedUntouched(c: C.Controller, agent: ID, rs: seq<C.NodeReport>, now: Time, id: ID)
    requires id !in C.IDs(rs)
    ensures id in C.ApplyNodes(c, agent, rs, now).nodes <==> id in c.nodes
    ensures id in c.nodes ==> C.ApplyNodes(c, agent, rs, now).nodes[id] == c.nodes[id]
  {
    if rs != [] {
      var n := |rs| - 1;
      assert rs == rs[..n] + [rs[n]];
      UnlistedUntouched(c, agent, rs[..n], now, id);
    }
  }

  lemma PartialOmissionIsHarmless(c: C.Controller, h: C.Report, now: Time, id: ID)
    requires h.partial && id !in C.IDs(h.nodes)
    ensures id in C.Heartbeat(c, h, now).nodes <==> id in c.nodes
    ensures id in c.nodes ==> C.Heartbeat(c, h, now).nodes[id] == c.nodes[id]
  {
    C.ExitsListed(h.nodes);
    UnlistedUntouched(c, h.agent.id, C.Usable(c, h), now, id);
  }

  // ------------------------------------------------- the bound is needed

  lemma Extend(ws: seq<World>, step: Step) returns (longer: seq<World>)
    requires IsRun(ws) && Enabled(ws[|ws| - 1], step)
    ensures IsRun(longer) && longer == ws + [Apply(ws[|ws| - 1], step)]
  {
    longer := ws + [Apply(ws[|ws| - 1], step)];
    forall i | 0 <= i < |longer| - 1 ensures Next(longer[i], longer[i + 1]) {
      if i < |ws| - 1 { assert Next(ws[i], ws[i + 1]); }
    }
  }

  // Phase 1: the Agent registers.
  lemma Registers() returns (ws: seq<World>)
    ensures IsRun(ws)
    ensures var w := ws[|ws| - 1];
            && w.self == w.instance == 1 && w.agent == A.EMPTY.(limit := 1) && w.acked == {} && w.registered
            && w.clock == 1 && w.round == None && w.exchange == None && w.epoch == 0
            && w.controller.agents.Keys == {1} && w.controller.agents[1].startedAt == 1
            && w.controller.nodes == map[] && w.controller.reservations == map[]
            && C.Snapshot(w.controller, 1) == 1
            && (forall m :: m in w.messages ==> m.epoch == 0)
  {
    ws := [Initial(1, 1, 1)];
    assert A.Used(ws[0].agent) == {};
    ws := Extend(ws, SendRegistration);
    ws := Extend(ws, Deliver(Registration(0, 1, 0), 10));
    ws := Extend(ws, Receive);
  }

  // Phase 2: process 7 runs and exits.
  lemma Exits() returns (ws: seq<World>)
    ensures IsRun(ws)
    ensures var w := ws[|ws| - 1];
            && w.self == w.instance == 1 && w.acked == {} == Acknowledged(w) == A.Used(w.agent) && w.registered
            && w.agent.processes.Keys == {7} && SuccessfullyStopped(w.agent.processes[7])
            && w.clock == 1 && w.round == None && w.exchange == None && w.epoch == 0
            && w.controller.agents.Keys == {1} && w.controller.agents[1].startedAt == 1
            && w.controller.nodes == map[] && w.controller.reservations == map[]
            && C.Snapshot(w.controller, 1) == 1
            && (forall m :: m in w.messages ==> m.epoch == 0)
  {
    ws := Registers();
    assert A.Used(ws[|ws| - 1].agent) == {};
    ws := Extend(ws, AgentWork(A.Create(7, 2, 0)));
    ws := Extend(ws, AgentWork(A.Finish(7, 0, false, false)));
  }

  const EXIT := C.NodeReport(7, Stopped, 1, 1)

  const BEAT := Beat(0, 2, 0, [EXIT], {})

  // Phase 3: the exit is reported ...
  lemma Reports() returns (ws: seq<World>)
    ensures IsRun(ws)
    ensures var w := ws[|ws| - 1];
            && w.self == w.instance == 1 && w.acked == {} && w.registered
            && w.agent.processes.Keys == {7} && SuccessfullyStopped(w.agent.processes[7])
            && w.clock == 2 && w.round.Some? && w.round.value.rest == [EXIT] && w.epoch == 0
            && w.exchange == Some(Exchange(BEAT, None)) && BEAT in w.messages
            && C.Judge(w.controller, HeartbeatOf(w, BEAT)) == C.Accepted
            && (forall m :: m in w.messages ==> m.epoch == 0)
  {
    ws := Exits();
    assert C.IDs([EXIT]) == {7} && [EXIT][..1] == [EXIT];
    ws := Extend(ws, BeginRound([EXIT]));
    ws := Extend(ws, SendBatch(1));
    assert !C.BadAt(ws[|ws| - 1].controller, 1, [EXIT], 0);
  }

  // ... and acknowledged.
  lemma Acknowledges() returns (ws: seq<World>)
    ensures IsRun(ws)
    ensures var w := ws[|ws| - 1];
            && w.self == w.instance == 1 && w.acked == Acknowledged(w) == w.agent.processes.Keys == {7}
            && w.registered && w.clock == 2 && w.round == None && w.exchange == None && w.epoch == 0
            && (forall m :: m in w.messages ==> m.epoch == 0)
  {
    ws := Reports();
    ws := Extend(ws, Deliver(BEAT, 11));
    HeardExit(ws[|ws| - 1], BEAT, EXIT);
    ws := Extend(ws, Receive);
  }

  lemma HeardExit(w: World, b: Message, exit: C.NodeReport)
    requires b.Beat? && b.nodes == [exit] && exit.id == 7 && exit.state.Stopped?
    requires w.exchange == Some(Exchange(b, Some(Ok))) && w.acked == {}
    requires w.agent.processes.Keys == {7} && SuccessfullyStopped(w.agent.processes[7])
    requires w.round.Some? && w.round.value.rest == [exit]
    ensures Received(w).acked == Acknowledged(Received(w)) == {7} && Received(w).round == None
  {
    assert exit in b.nodes;
  }

  /** The bound of OmissionIsSafe cannot be dropped. A heartbeat sent to a restarted
      Controller and delayed past the re-registration is accepted (as stale) although the
      Controller has never heard of the exit it omits. Nothing is lost by it: see
      PartialOmissionIsHarmless, and the re-registration makes the Agent repeat the exit. */
  lemma StaleOmissionHappens() returns (ws: seq<World>, m: Message)
    ensures IsRun(ws) && m.Beat?
    ensures var w := ws[|ws| - 1];
            && m in w.messages && m.epoch == w.epoch
            && C.Judge(w.controller, HeartbeatOf(w, m)) == C.Accepted
            && C.Stale(w.controller, HeartbeatOf(w, m))
            && !StoppedThere(w.controller, m.omitted)
  {
    ws := Acknowledges();
    ws := Extend(ws, Restart);
    m := Beat(1, 3, |A.Used(ws[|ws| - 1].agent)|, [], {7});
    ws := Extend(ws, BeginRound([]));
    ws := Extend(ws, SendBatch(0));
    ws := Extend(ws, Abandon);
    assert m in ws[|ws| - 1].messages && ws[|ws| - 1].controller == C.EMPTY;
    ws := Refused(ws, m);
    ws := Extend(ws, SendRegistration);
    var r := ws[|ws| - 1].exchange.value.message;
    ws := Extend(ws, Deliver(r, 13));
    assert 7 in m.omitted && 7 !in ws[|ws| - 1].controller.nodes;
  }

  // The next heartbeat is answered with a conflict, which makes the Agent register again.
  lemma Refused(ws: seq<World>, m: Message) returns (longer: seq<World>)
    requires IsRun(ws)
    requires var w := ws[|ws| - 1];
             && w.registered && w.round == None && w.exchange == None && w.epoch == 1 && w.clock == 3
             && w.controller == C.EMPTY && w.agent.processes.Keys == Acknowledged(w) && m in w.messages
             && w.self == w.instance == 1
    ensures IsRun(longer)
    ensures var w := longer[|longer| - 1];
            && !w.registered && w.round == None && w.exchange == None && w.epoch == 1 && w.clock == 4
            && w.controller == C.EMPTY && m in w.messages && w.self == w.instance == 1
  {
    var b := Beat(1, 4, |A.Used(ws[|ws| - 1].agent)|, [], Acknowledged(ws[|ws| - 1]));
    longer := Extend(ws, BeginRound([]));
    longer := Extend(longer, SendBatch(0));
    assert longer[|longer| - 1].exchange == Some(Exchange(b, None));
    longer := Extend(longer, Deliver(b, 12));
    longer := Extend(longer, Receive);
  }
}
