/** Process lifecycle of one Agent: admission, run fences, stop requests, container
    cleanup and its retries.

    Every critical section under the Agent's lock is one atomic `Step`; goroutines that
    will eventually report the end of a container are the members of `finishers`. The
    class at the end is the program's form; its history is a run of the state machine,
    and what the program promises is proved about all runs.
 */
module AgentLifecycle {
  import opened Model

  // `attempt` names the current completion channel: a retried cleanup replaces it.
  datatype Process = Process(
    run: ID, generation: nat, state: NodeState, exited: bool, cleanupFailed: bool,
    container: bool, endpoint: bool, observedAt: nat, attempt: nat)

  type Channel = (ID, nat)

  datatype Agent = Agent(
    processes: map<ID, Process>, fences: map<ID, nat>, shuttingDown: bool, limit: nat,
    finishers: set<Channel>, closed: set<Channel>)

  datatype Step =
    | Create(id: ID, run: ID, generation: nat)
    | Attach(id: ID, container: bool, endpoint: bool)
    | Finish(id: ID, attempt: nat, runFailed: bool, removeFailed: bool)
    | StopNode(id: ID)
    | StopRun(run: ID, generation: nat)
    | Update(id: ID, state: NodeState, at: nat)
    | FenceAll
    | Shutdown
    | Limit(limit: nat)

  // The largest generation number: it fences every generation of a run.
  const EVERY_GENERATION: nat := 0xFFFF_FFFF_FFFF_FFFF

  const EMPTY := Agent(map[], map[], false, 0, {}, {})

  // A slot is held from admission until the container is confirmed removed.
  predicate Occupies(p: Process) { !p.exited || p.cleanupFailed }

  function Used(a: Agent): set<ID> { set id | id in a.processes && Occupies(a.processes[id]) }

  predicate Fenced(a: Agent, run: ID, generation: nat) {
    run in a.fences && generation <= a.fences[run]
  }

  predicate Admits(a: Agent, id: ID, run: ID, generation: nat) {
    && id != NO_ID && run != NO_ID && !a.shuttingDown && !Fenced(a, run, generation)
    && id !in a.processes && |Used(a)| < a.limit
  }

  function NewProcess(run: ID, generation: nat): Process {
    Process(run, generation, Starting, false, false, false, false, 0, 0)
  }

  predicate RetryDue(p: Process) { p.cleanupFailed && p.container }

  function Retried(p: Process): Process {
    p.(exited := false, state := Stopping, attempt := p.attempt + 1)
  }

  function Finished(p: Process, runFailed: bool, removeFailed: bool): Process {
    p.(exited := true, cleanupFailed := removeFailed,
       state := if !removeFailed && (p.state.Stopping? || !runFailed) then Stopped else Failed)
  }

  function Reported(p: Process, state: NodeState, at: nat): Process {
    if p.exited || p.state.Stopping? || Terminal(p.state) then p
    else if p.observedAt != 0 && at <= p.observedAt then p
    else
      p.(observedAt := if at != 0 then at else p.observedAt,
         state := if !state.Ready? || p.endpoint then state else p.state)
  }

  predicate Matches(p: Process, run: ID, generation: nat) {
    p.run == run && p.generation <= generation
  }

  function Raised(fences: map<ID, nat>, run: ID, generation: nat): map<ID, nat> {
    if run in fences && generation <= fences[run] then fences else fences[run := generation]
  }

  predicate RetriedByStop(p: Process, run: ID, generation: nat) {
    Matches(p, run, generation) && p.exited && RetryDue(p)
  }

  function StoppedByRun(p: Process, run: ID, generation: nat): Process {
    if !Matches(p, run, generation) then p
    else if p.exited then (if RetryDue(p) then Retried(p) else p)
    else if p.state.Stopping? || Terminal(p.state) then p
    else p.(state := Stopping)
  }

  // Reopened for a fresh attempt to remove its container.
  predicate Reopened(p: Process, q: Process) { p.exited && q == p.(exited := false, state := Stopping, attempt := p.attempt + 1) }

  /** What a stop of a fenced run makes of a process p of the Agent. */
  predicate ToldToStop(p: Process, q: Process, run: ID, fence: nat) {
    if p.run != run || p.generation > fence then q == p
    else if !p.exited then q == p.(state := q.state) && (q.state.Stopping? || (q == p && (p.state.Stopped? || p.state.Failed?)))
    else if p.cleanupFailed && p.container then Reopened(p, q)
    else q == p
  }

  lemma ByRunIsToldToStop(processes: map<ID, Process>, run: ID, fence: nat)
    ensures forall id :: id in processes ==> ToldToStop(processes[id], StoppedByRun(processes[id], run, fence), run, fence)
    ensures forall c :: c in Retries(processes, run, fence) <==>
      c.0 in processes && Reopened(processes[c.0], StoppedByRun(processes[c.0], run, fence)) && c.1 == processes[c.0].attempt + 1
  {
  }

  function Retries(processes: map<ID, Process>, run: ID, generation: nat): set<Channel> {
    set id | id in processes && RetriedByStop(processes[id], run, generation) :: (id, processes[id].attempt + 1)
  }

  predicate IsRetry(processes: map<ID, Process>, run: ID, generation: nat, c: Channel) {
    c.0 in processes && RetriedByStop(processes[c.0], run, generation) && c.1 == processes[c.0].attempt + 1
  }

  predicate Enabled(a: Agent, step: Step) {
    match step
    case Attach(id, _, _) => id in a.processes && !a.processes[id].exited && !a.processes[id].cleanupFailed
    case Finish(id, n, _, _) => (id, n) in a.finishers && id in a.processes
    case _ => true
  }

  function Apply(a: Agent, step: Step): Agent
    requires Enabled(a, step)
  {
    match step
    case Create(id, run, generation) =>
      if Admits(a, id, run, generation)
      then a.(processes := a.processes[id := NewProcess(run, generation)], finishers := a.finishers + {(id, 0)})
      else a
    case Attach(id, container, endpoint) =>
      a.(processes := a.processes[id := a.processes[id].(container := container, endpoint := endpoint)])
    case Finish(id, n, runFailed, removeFailed) =>
      var p := a.processes[id];
      a.(processes := a.processes[id := Finished(p, runFailed, removeFailed)],
         finishers := a.finishers - {(id, n)},
         closed := a.closed + {(id, p.attempt)})
    case StopNode(id) =>
      if id !in a.processes then a
      else
        var p := a.processes[id];
        if Terminal(p.state) then
          if RetryDue(p)
          then a.(processes := a.processes[id := Retried(p)], finishers := a.finishers + {(id, p.attempt + 1)})
          else a
        else a.(processes := a.processes[id := p.(state := Stopping)])
    case StopRun(run, generation) =>
      var fences := Raised(a.fences, run, generation);
      a.(fences := fences,
         processes := map id | id in a.processes :: StoppedByRun(a.processes[id], run, fences[run]),
         finishers := a.finishers + Retries(a.processes, run, fences[run]))
    case Update(id, state, at) =>
      if id in a.processes then a.(processes := a.processes[id := Reported(a.processes[id], state, at)]) else a
    case FenceAll =>
      a.(fences := a.fences + map id | id in Runs(a.processes) :: EVERY_GENERATION)
    case Shutdown => a.(shuttingDown := true)
    case Limit(limit) => a.(limit := limit)
  }

  function Runs(processes: map<ID, Process>): set<ID> {
    set id | id in processes :: processes[id].run
  }

  // ------------------------------------------------------------ invariant

  /** "Not exited" holds exactly while one finisher is outstanding, and a completion
      channel is closed exactly when its attempt is over. */
  ghost predicate CoherentAt(a: Agent, id: ID) {
    && (forall n: nat :: (id, n) in a.finishers <==> OwesFinish(a, id, n))
    && (forall n: nat :: (id, n) in a.closed <==> AttemptOver(a, id, n))
    && (id in a.processes ==> Ordered(a.processes[id]))
  }

  ghost predicate Coherent(a: Agent) { forall id :: CoherentAt(a, id) }

  predicate OwesFinish(a: Agent, id: ID, n: nat) {
    id in a.processes && n == a.processes[id].attempt && !a.processes[id].exited
  }

  predicate AttemptOver(a: Agent, id: ID, n: nat) {
    id in a.processes && (n < a.processes[id].attempt || (n == a.processes[id].attempt && a.processes[id].exited))
  }

  predicate Ordered(p: Process) {
    && (p.exited ==> Terminal(p.state))
    && (p.cleanupFailed && !p.exited ==> p.state.Stopping?)
  }

  lemma StepKeepsCoherent(a: Agent, step: Step)
    requires Coherent(a) && Enabled(a, step)
    ensures Coherent(Apply(a, step))
  {
    forall id ensures CoherentAt(Apply(a, step), id) {
      assert CoherentAt(a, id);
      if step.Finish? { assert CoherentAt(a, step.id); }
      if step.StopRun? { StopRunKeepsCoherentAt(a, step.run, step.generation, id); }
    }
  }

  lemma StopRunKeepsCoherentAt(a: Agent, run: ID, generation: nat, id: ID)
    requires CoherentAt(a, id)
    ensures CoherentAt(Apply(a, StopRun(run, generation)), id)
  {
    var b := Apply(a, StopRun(run, generation));
    var fence := b.fences[run];
    var retries := Retries(a.processes, run, fence);
    forall n: nat ensures (id, n) in b.finishers <==> OwesFinish(b, id, n) {
      assert (id, n) in retries <==> id in a.processes && RetriedByStop(a.processes[id], run, fence) && n == a.processes[id].attempt + 1;
    }
  }

  /** A finisher never closes a completion channel twice. */
  lemma NoDoubleClose(a: Agent, step: Step)
    requires Coherent(a) && step.Finish? && Enabled(a, step)
    ensures (step.id, a.processes[step.id].attempt) !in a.closed
    ensures step.attempt == a.processes[step.id].attempt
  {
    assert CoherentAt(a, step.id);
    assert OwesFinish(a, step.id, step.attempt);
  }

  // ---------------------------------------------------------- permanence

  // Exited with its container confirmed removed.
  predicate Settled(p: Process) { p.exited && !p.cleanupFailed }

  predicate KeepsProcess(a: Agent, b: Agent, id: ID) {
    id in a.processes ==>
      && id in b.processes
      && b.processes[id].run == a.processes[id].run
      && b.processes[id].generation == a.processes[id].generation
      && (Settled(a.processes[id]) ==> Settled(b.processes[id]))
  }

  predicate KeepsFence(a: Agent, b: Agent, run: ID) {
    run in a.fences ==>
      run in b.fences && (b.fences[run] >= a.fences[run] || b.fences[run] == EVERY_GENERATION)
  }

  predicate NewIsUnfenced(a: Agent, b: Agent, id: ID) {
    id in b.processes && id !in a.processes ==> !Fenced(a, b.processes[id].run, b.processes[id].generation)
  }

  // What a later state keeps of an earlier one.
  ghost predicate Later(a: Agent, b: Agent) {
    && (forall id :: KeepsProcess(a, b, id))
    && (forall run :: KeepsFence(a, b, run))
    && (forall id :: NewIsUnfenced(a, b, id))
  }

  ghost predicate Small(a: Agent) {
    forall run :: run in a.fences ==> a.fences[run] <= EVERY_GENERATION
  }

  // A run of the machine: every adjacent pair is an enabled step.
  ghost predicate IsRun(run: seq<Agent>) {
    forall i :: 0 <= i < |run| - 1 ==> Next(run[i], run[i + 1])
  }

  ghost predicate Next(a: Agent, b: Agent) {
    exists step :: Enabled(a, step) && InRange(step) && b == Apply(a, step)
  }

  // Generations arrive as unsigned 64-bit numbers.
  predicate InRange(step: Step) {
    match step
    case Create(_, _, generation) => generation <= EVERY_GENERATION
    case StopRun(_, generation) => generation <= EVERY_GENERATION
    case _ => true
  }

  // A replaced channel leaves the failure in place until the retry has finished.
  predicate RetryKeepsFailure(b: Agent, id: ID, attempt: nat) {
    && id in b.processes
    && b.processes[id].attempt >= attempt
    && (b.processes[id].attempt > attempt && !b.processes[id].exited ==> b.processes[id].cleanupFailed)
  }

  lemma StepIsLater(a: Agent, step: Step)
    requires Coherent(a) && Enabled(a, step)
    ensures Later(a, Apply(a, step))
  {
    if step.Finish? { assert CoherentAt(a, step.id); assert OwesFinish(a, step.id, step.attempt); }
  }

  lemma NextKeeps(a: Agent, b: Agent)
    requires Next(a, b) && Coherent(a) && Small(a)
    ensures Coherent(b) && Small(b) && Later(a, b)
  {
    var step :| Enabled(a, step) && InRange(step) && b == Apply(a, step);
    StepKeepsCoherent(a, step);
    StepIsLater(a, step);
  }

  lemma NextKeepsFailure(a: Agent, b: Agent, id: ID, attempt: nat)
    requires Next(a, b) && CoherentAt(a, id) && RetryKeepsFailure(a, id, attempt)
    ensures RetryKeepsFailure(b, id, attempt)
  {
    var step :| Enabled(a, step) && InRange(step) && b == Apply(a, step);
    StepKeepsFailure(a, step, id, attempt);
  }

  lemma StepKeepsFailure(a: Agent, step: Step, id: ID, attempt: nat)
    requires Enabled(a, step) && RetryKeepsFailure(a, id, attempt) && Ordered(a.processes[id])
    ensures RetryKeepsFailure(Apply(a, step), id, attempt)
  {
    var p, q := a.processes[id], Apply(a, step).processes[id];
    match step {
      case StopRun(run, generation) => assert q == StoppedByRun(p, run, Apply(a, step).fences[run]);
      case Update(_, state, at) => assert q == p || q == Reported(p, state, at);
      case Finish(_, _, r, f) => assert q == p || q == Finished(p, r, f);
      case StopNode(_) => assert q == p || q == Retried(p) || q == p.(state := Stopping);
      case _ =>
    }
  }

  lemma LaterComposes(a: Agent, b: Agent, c: Agent)
    requires Later(a, b) && Later(b, c) && Small(a)
    ensures Later(a, c)
  {
    forall id ensures KeepsProcess(a, c, id) && NewIsUnfenced(a, c, id) {
      assert KeepsProcess(a, b, id) && KeepsProcess(b, c, id) && NewIsUnfenced(a, b, id) && NewIsUnfenced(b, c, id);
      if id in c.processes && id !in a.processes {
        assert KeepsFence(a, b, c.processes[id].run);
        if id !in b.processes { assert !Fenced(b, c.processes[id].run, c.processes[id].generation); }
      }
    }
    forall run ensures KeepsFence(a, c, run) { assert KeepsFence(a, b, run) && KeepsFence(b, c, run); }
  }

  lemma {:induction false} RunKeeps(run: seq<Agent>, i: nat, j: nat)
    requires IsRun(run) && i <= j < |run| && Coherent(run[i]) && Small(run[i])
    ensures Coherent(run[j]) && Small(run[j]) && Later(run[i], run[j])
  {
    if i < j {
      RunKeeps(run, i, j - 1);
      assert Next(run[j - 1], run[j - 1 + 1]);
      NextKeeps(run[j - 1], run[j]);
      LaterComposes(run[i], run[j - 1], run[j]);
    }
  }

  lemma {:induction false} RunKeepsFailure(run: seq<Agent>, i: nat, j: nat, id: ID)
    requires IsRun(run) && i <= j < |run| && Coherent(run[i]) && Small(run[i])
    requires id in run[i].processes
    ensures RetryKeepsFailure(run[j], id, run[i].processes[id].attempt)
  {
    if i < j {
      RunKeepsFailure(run, i, j - 1, id);
      RunKeeps(run, i, j - 1);
      assert Next(run[j - 1], run[j - 1 + 1]);
      NextKeepsFailure(run[j - 1], run[j], id, run[i].processes[id].attempt);
    }
  }

  // One process of the waiter's snapshot: the channel it captured was seen closed, and
  // at that read there was no cleanup failure.
  ghost predicate Seen(run: seq<Agent>, id: ID, capture: nat, read: nat)
    requires capture <= read < |run| && id in run[capture].processes
  {
    && (id, run[capture].processes[id].attempt) in run[read].closed
    && id in run[read].processes
    && !run[read].processes[id].cleanupFailed
  }

  /** Seeing the captured channel closed and then no failure is enough: even when a retry
      has replaced the channel in between, the process is settled. */
  lemma SeenIsSettled(run: seq<Agent>, id: ID, capture: nat, read: nat)
    requires IsRun(run) && capture <= read < |run|
    requires Coherent(run[capture]) && Small(run[capture])
    requires id in run[capture].processes && Seen(run, id, capture, read)
    ensures Settled(run[read].processes[id])
  {
    RunKeeps(run, capture, read);
    RunKeepsFailure(run, capture, read, id);
    assert CoherentAt(run[read], id);
    assert AttemptOver(run[read], id, run[capture].processes[id].attempt);
  }

  // A fence of the run stands; nothing below it is admitted, then or later.
  lemma FenceStands(a: Agent, b: Agent, run: ID, generation: nat)
    requires Later(a, b) && Fenced(a, run, generation) && generation <= EVERY_GENERATION
    ensures Fenced(b, run, generation)
    ensures forall id :: id in b.processes && Matches(b.processes[id], run, generation) ==> id in a.processes
  {
    assert KeepsFence(a, b, run);
    forall id | id in b.processes && Matches(b.processes[id], run, generation) ensures id in a.processes {
      assert NewIsUnfenced(a, b, id);
    }
  }

  // A fence of every generation is never lowered.
  lemma FencesStay(a: Agent, b: Agent)
    requires Later(a, b) && Small(b)
    ensures forall run :: run in a.fences && a.fences[run] == EVERY_GENERATION ==> run in b.fences && b.fences[run] == EVERY_GENERATION
  {
    forall run | run in a.fences ensures KeepsFence(a, b, run) { }
  }

  ghost predicate Starts(run: seq<Agent>) {
    run != [] && run[0] == EMPTY.(limit := run[0].limit)
  }

  lemma StartIsCoherent(run: seq<Agent>)
    requires Starts(run)
    ensures Coherent(run[0]) && Small(run[0])
  {
  }

  /** Main result. Once stopRunGeneration(run, g) is followed by a waitRunContainers that
      reports success, in every later state no process of that run with generation <= g
      holds a slot, and none can be created. */
  lemma FencesArePermanent(run: seq<Agent>, runID: ID, g: nat, stop: nat, capture: nat,
                           readAt: map<ID, nat>, later: nat)
    requires IsRun(run) && Starts(run) && g <= EVERY_GENERATION
    requires stop + 1 <= capture <= later < |run|
    requires run[stop + 1] == Apply(run[stop], StopRun(runID, g))
    requires forall id :: id in run[capture].processes && Matches(run[capture].processes[id], runID, g) ==>
               id in readAt && capture <= readAt[id] <= later && Seen(run, id, capture, readAt[id])
    ensures forall id :: id in run[later].processes && Matches(run[later].processes[id], runID, g) ==>
              Settled(run[later].processes[id]) && id !in Used(run[later])
    ensures forall id, generation: nat :: generation <= g ==> !Admits(run[later], id, runID, generation)
  {
    StartIsCoherent(run);
    RunKeeps(run, 0, stop + 1);
    RunKeeps(run, stop + 1, capture);
    RunKeeps(run, capture, later);
    assert Fenced(run[stop + 1], runID, g);
    FenceStands(run[stop + 1], run[capture], runID, g);
    FenceStands(run[capture], run[later], runID, g);
    forall id | id in run[later].processes && Matches(run[later].processes[id], runID, g)
      ensures Settled(run[later].processes[id])
    {
      assert KeepsProcess(run[capture], run[later], id);
      SettledLater(run, id, capture, readAt[id], later);
    }
  }

  lemma SettledLater(run: seq<Agent>, id: ID, capture: nat, read: nat, later: nat)
    requires IsRun(run) && capture <= read <= later < |run|
    requires Coherent(run[capture]) && Small(run[capture])
    requires id in run[capture].processes && Seen(run, id, capture, read)
    ensures id in run[later].processes && Settled(run[later].processes[id])
  {
    SeenIsSettled(run, id, capture, read);
    RunKeeps(run, capture, read);
    RunKeeps(run, read, later);
    assert KeepsProcess(run[read], run[later], id);
  }

  // ---------------------------------------------------------- shutting down

  // Over, told to stop, or already reported terminal.
  predicate Leaving(p: Process) { p.exited || p.state.Stopping? || Terminal(p.state) }

  // Nobody joins after the shutdown flag, and whoever is leaving does not come back.
  ghost predicate OnlyLeaves(a: Agent, b: Agent) {
    && (forall id :: id in a.processes ==> id in b.processes)
    && (a.shuttingDown ==> b.shuttingDown && forall id :: id in b.processes ==> id in a.processes)
    && forall id :: id in a.processes && Leaving(a.processes[id]) ==> id in b.processes && Leaving(b.processes[id])
  }

  lemma StepOnlyLeaves(a: Agent, step: Step)
    requires Enabled(a, step)
    ensures OnlyLeaves(a, Apply(a, step))
  {
  }

  /** From the shutdown flag on, in every later state: nothing is admitted, and what is
      leaving stays so. */
  lemma {:induction false} RunOnlyLeaves(run: seq<Agent>, i: nat, j: nat)
    requires IsRun(run) && i <= j < |run|
    ensures OnlyLeaves(run[i], run[j])
    ensures run[i].shuttingDown ==> forall id, r, generation :: !Admits(run[j], id, r, generation)
  {
    hide OnlyLeaves;
    if i < j {
      RunOnlyLeaves(run, i, j - 1);
      assert Next(run[j - 1], run[j - 1 + 1]);
      var step :| Enabled(run[j - 1], step) && InRange(step) && run[j] == Apply(run[j - 1], step);
      StepOnlyLeaves(run[j - 1], step);
      OnlyLeavesComposes(run[i], run[j - 1], run[j]);
    } else {
      OnlyLeavesItself(run[i]);
    }
    assert OnlyLeaves(run[i], run[j]);
    FlagStays(run[i], run[j]);
  }

  lemma OnlyLeavesItself(a: Agent)
    ensures OnlyLeaves(a, a)
  {
  }

  lemma FlagStays(a: Agent, b: Agent)
    requires OnlyLeaves(a, b)
    ensures a.shuttingDown ==> b.shuttingDown
  {
  }

  lemma OnlyLeavesComposes(a: Agent, b: Agent, c: Agent)
    requires OnlyLeaves(a, b) && OnlyLeaves(b, c)
    ensures OnlyLeaves(a, c)
  {
  }

  lemma StillLeaving(a: Agent, b: Agent, ids: seq<ID>)
    requires OnlyLeaves(a, b) && forall id :: id in ids ==> id in a.processes && Leaving(a.processes[id])
    ensures forall id :: id in ids ==> id in b.processes && Leaving(b.processes[id])
  {
    hide Leaving;
  }

  lemma KeptSince(a: Agent, b: Agent, id: ID)
    requires OnlyLeaves(a, b) && id in a.processes
    ensures id in b.processes
  {
  }

  lemma StopLeaves(a: Agent, id: ID)
    requires id in a.processes
    ensures id in Apply(a, StopNode(id)).processes && Leaving(Apply(a, StopNode(id)).processes[id])
  {
  }

  // Whatever was not worth stopping had already exited.
  lemma AllLeave(a: Agent, b: Agent, ids: seq<ID>)
    requires OnlyLeaves(a, b)
    requires forall id :: id in ids <==> id in a.processes && (!a.processes[id].exited || a.processes[id].cleanupFailed)
    requires forall id :: id in ids ==> id in b.processes && Leaving(b.processes[id])
    ensures forall id :: id in a.processes ==> id in b.processes && Leaving(b.processes[id])
    ensures a.shuttingDown ==> b.shuttingDown && forall id :: id in b.processes ==> Leaving(b.processes[id])
  {
  }

  // ------------------------------------------------------- program's form

  class Server {
    var processes: map<ID, Process>
    var runFences: map<ID, nat>
    var shuttingDown: bool
    var capacityLimit: nat
    // Goroutines that still owe a finish, and the closed completion channels.
    var finishers: set<Channel>
    var closed: set<Channel>
    ghost var history: seq<Agent>

    ghost function View(): Agent
      reads this
    {
      Agent(processes, runFences, shuttingDown, capacityLimit, finishers, closed)
    }

    ghost predicate Valid()
      reads this
    {
      && history != [] && history[|history| - 1] == View() && IsRun(history)
      && Starts(history)
    }

    lemma Facts()
      requires Valid()
      ensures Coherent(View()) && Small(View())
    {
      StartIsCoherent(history);
      RunKeeps(history, 0, |history| - 1);
    }

    constructor (capacity: nat)
      ensures Valid() && View() == EMPTY.(limit := capacity)
    {
      processes, runFences, shuttingDown, capacityLimit := map[], map[], false, capacity;
      finishers, closed := {}, {};
      history := [EMPTY.(limit := capacity)];
    }

    // Record that the fields now hold the outcome of one step.
    ghost method Record(step: Step)
      requires IsRun(history) && Starts(history)
      requires Enabled(history[|history| - 1], step) && InRange(step)
      requires View() == Apply(history[|history| - 1], step)
      modifies this`history
      ensures Valid() && history == old(history) + [View()]
    {
      assert Next(history[|history| - 1], View());
      history := history + [View()];
    }

    // Any other goroutines may take any number of steps while the lock is free.
    method Others()
      requires Valid()
      modifies this
      ensures Valid() && old(history) <= history
    {
    }

    method CapacityUsed() returns (count: nat)
      ensures count == |Used(View())|
      ensures count == |set id | id in processes && (!processes[id].exited || processes[id].cleanupFailed)|
    {
      count := 0;
      var todo := processes.Keys;
      ghost var counted: set<ID> := {};
      while todo != {}
        invariant todo <= processes.Keys
        invariant counted == (set id | id in processes && id !in todo && Occupies(processes[id]))
        invariant count == |counted|
        decreases todo
      {
        var id :| id in todo;
        todo := todo - {id};
        if Occupies(processes[id]) {
          counted := counted + {id};
          count := count + 1;
        }
      }
      assert counted == Used(View());
      assert counted == set id | id in processes && (!processes[id].exited || processes[id].cleanupFailed);
    }

    /** Admission is one decision under the lock: shutdown, fence, duplicate, capacity. */
    method CreateNode(id: ID, run: ID, generation: nat) returns (created: bool)
      requires Valid() && generation <= EVERY_GENERATION
      modifies this
      ensures Valid() && View() == Apply(old(View()), Create(id, run, generation))
      ensures created <==>
        && id != NO_ID && run != NO_ID && !old(shuttingDown) && id !in old(processes)
        && (run in old(runFences) ==> old(runFences)[run] < generation)
        && |set x | x in old(processes) && (!old(processes)[x].exited || old(processes)[x].cleanupFailed)| < old(capacityLimit)
      ensures created ==> processes == old(processes)[id := Process(run, generation, Starting, false, false, false, false, 0, 0)]
      ensures created ==> finishers == old(finishers) + {(id, 0)} && |Used(View())| <= capacityLimit
      ensures !created ==> View() == old(View())
    {
      created := false;
      var used := CapacityUsed();
      if id != NO_ID && run != NO_ID && !shuttingDown && !(run in runFences && generation <= runFences[run])
         && id !in processes && used < capacityLimit
      {
        ghost var before := View();
        processes := processes[id := NewProcess(run, generation)];
        finishers := finishers + {(id, 0)};
        created := true;
        assert Used(View()) == Used(before) + {id};
      }
      Record(Create(id, run, generation));
    }

    method AttachContainer(id: ID, container: bool, endpoint: bool)
      requires Valid() && id in processes && !processes[id].exited && !processes[id].cleanupFailed
      modifies this
      ensures Valid() && View() == Apply(old(View()), Attach(id, container, endpoint))
      ensures processes == old(processes)[id := old(processes)[id].(container := container, endpoint := endpoint)]
    {
      processes := processes[id := processes[id].(container := container, endpoint := endpoint)];
      Record(Attach(id, container, endpoint));
    }

    /** The one report a finisher owes. It closes the completion channel, which is open. */
    method FinishProcess(id: ID, attempt: nat, runFailed: bool, removeFailed: bool)
      requires Valid() && (id, attempt) in finishers && id in processes
      modifies this
      ensures Valid() && View() == Apply(old(View()), Finish(id, attempt, runFailed, removeFailed))
      ensures (id, attempt) !in old(closed) && closed == old(closed) + {(id, attempt)} && finishers == old(finishers) - {(id, attempt)}
      ensures processes == old(processes)[id := old(processes)[id].(exited := true, cleanupFailed := removeFailed, state := processes[id].state)]
      ensures processes[id].state == if removeFailed || (runFailed && !old(processes)[id].state.Stopping?) then Failed else Stopped
    {
      Facts();
      NoDoubleClose(View(), Finish(id, attempt, runFailed, removeFailed));
      var p := processes[id];
      p := p.(exited := true, cleanupFailed := removeFailed);
      if !removeFailed && (p.state.Stopping? || !runFailed) {
        p := p.(state := Stopped);
      } else {
        assert runFailed || removeFailed;  // there is an error text to report
        p := p.(state := Failed);
      }
      processes := processes[id := p];
      finishers := finishers - {(id, attempt)};
      closed := closed + {(id, p.attempt)};
      Record(Finish(id, attempt, runFailed, removeFailed));
    }

    method StopNode(id: ID) returns (found: bool)
      requires Valid()
      modifies this
      ensures Valid() && View() == Apply(old(View()), Step.StopNode(id)) && history == old(history) + [View()]
      ensures found <==> id in old(processes)
      ensures !found ==> View() == old(View())
      ensures found ==> (var p := old(processes)[id]; var over := p.state.Stopped? || p.state.Failed?;
        && processes == old(processes)[id := processes[id]]
        && (!over ==> processes[id] == p.(state := Stopping) && finishers == old(finishers))
        && (over && p.cleanupFailed && p.container ==>
              processes[id] == p.(exited := false, state := Stopping, attempt := p.attempt + 1) && finishers == old(finishers) + {(id, p.attempt + 1)})
        && (over && !(p.cleanupFailed && p.container) ==> View() == old(View())))
    {
      found := id in processes;
      if found {
        var p := processes[id];
        if p.state.Stopped? || p.state.Failed? {
          if p.cleanupFailed && p.container { RetryCleanup(id); }
        } else {
          processes := processes[id := p.(state := Stopping)];
        }
      }
      Record(Step.StopNode(id));
    }

    method RetryCleanup(id: ID)
      requires id in processes
      modifies this`processes, this`finishers
      ensures processes == old(processes)[id := Retried(old(processes[id]))]
      ensures finishers == old(finishers) + {(id, old(processes[id]).attempt + 1)}
    {
      var p := processes[id];
      processes := processes[id := p.(exited := false, state := Stopping, attempt := p.attempt + 1)];
      finishers := finishers + {(id, p.attempt + 1)};
    }

    /** The fence is raised before any matching process is touched, in one critical
        section; the order in which the processes are visited does not matter. */
    method StopRunGeneration(run: ID, generation: nat)
      requires Valid() && generation <= EVERY_GENERATION
      modifies this
      ensures Valid() && View() == Apply(old(View()), StopRun(run, generation))
      ensures Fenced(View(), run, generation)
      ensures runFences == old(runFences)[run := runFences[run]]
      ensures runFences[run] == if run in old(runFences) then MaxInt(old(runFences)[run], generation) else generation
      ensures processes.Keys == old(processes.Keys) && forall id :: id in processes ==>
        ToldToStop(old(processes)[id], processes[id], run, runFences[run])
      ensures forall c :: c in finishers <==>
        c in old(finishers) || (c.0 in processes && Reopened(old(processes)[c.0], processes[c.0]) && c.1 == processes[c.0].attempt)
    {
      if run !in runFences || generation > runFences[run] { runFences := runFences[run := generation]; }
      StopMatching(run, runFences[run]);
      Record(StopRun(run, generation));
      hide *;
      ByRunIsToldToStop(old(processes), run, runFences[run]);
    }

    method StopMatching(run: ID, fence: nat)
      modifies this`processes, this`finishers
      ensures processes == map id | id in old(processes) :: StoppedByRun(old(processes)[id], run, fence)
      ensures finishers == old(finishers) + Retries(old(processes), run, fence)
    {
      ghost var before, owed := processes, finishers;
      var todo := processes.Keys;
      ghost var retried: set<Channel> := {};
      while todo != {}
        invariant todo <= processes.Keys == before.Keys
        invariant forall id :: id in todo ==> processes[id] == before[id]
        invariant forall id :: id in before.Keys - todo ==> processes[id] == StoppedByRun(before[id], run, fence)
        invariant forall c :: c in retried <==> IsRetry(before, run, fence, c) && c.0 !in todo
        invariant finishers == owed + retried
        decreases todo
      {
        var id :| id in todo;
        todo := todo - {id};
        var p := processes[id];
        if p.run != run || p.generation > fence { continue; }
        if p.exited {
          if p.cleanupFailed && p.container {
            retried := retried + {(id, p.attempt + 1)};
            RetryCleanup(id);
          }
          continue;
        }
        if p.state.Stopping? || p.state.Stopped? || p.state.Failed? { continue; }
        processes := processes[id := p.(state := Stopping)];
      }
      assert retried == Retries(before, run, fence);
    }

    /** A report from the Peer: ignored once stopping or exited, and when it is not newer
        than the last one; "ready" waits for a control endpoint. */
    method UpdateNode(id: ID, state: NodeState, at: nat) returns (found: bool)
      requires Valid()
      modifies this
      ensures Valid() && View() == Apply(old(View()), Update(id, state, at))
      ensures found <==> id in old(processes)
      ensures !found ==> View() == old(View())
      ensures found ==> (var p := old(processes)[id];
        var ignored := p.exited || p.state.Stopping? || p.state.Stopped? || p.state.Failed? || (p.observedAt != 0 && at <= p.observedAt);
        && processes == old(processes)[id := processes[id]]
        && (ignored ==> processes[id] == p)
        && (!ignored ==> processes[id] == p.(state := if state.Ready? && !p.endpoint then p.state else state,
              observedAt := if at == 0 then p.observedAt else at)))
    {
      found := id in processes;
      if found {
        var p := processes[id];
        if !p.exited && p.state != Stopping && p.state != Stopped && p.state != Failed
           && !(p.observedAt != 0 && (at == 0 || at <= p.observedAt))
        {
          if at != 0 { p := p.(observedAt := at); }
          if state != Ready || p.endpoint { p := p.(state := state); }
          processes := processes[id := p];
        }
      }
      assert id in processes ==> processes == processes[id := processes[id]];
      Record(Update(id, state, at));
    }

    /** DELETE of all nodes: fence every known run in one critical section, then stop process
        by process. */
    method DeleteNodes()
      requires Valid()
      modifies this
      ensures Valid() && |old(history)| < |history| && old(history) + [Apply(old(View()), FenceAll)] <= history
      ensures forall id :: id in old(processes) ==> id in processes && Leaving(processes[id])
      ensures forall id :: id in old(processes) ==> old(processes)[id].run in runFences && runFences[old(processes)[id].run] == EVERY_GENERATION
    {
      hide IsRun, Starts, Leaving;
      RaiseAll();
      Record(FenceAll);
      ghost var fenced := |history| - 1;
      StopAll();
      LaterView(fenced);
      FencesStay(history[fenced], View());
    }

    method RaiseAll()
      modifies this`runFences
      ensures runFences == old(runFences) + map run | run in Runs(processes) :: EVERY_GENERATION
    {
      var todo := processes.Keys;
      ghost var done: set<ID> := {};
      while todo != {}
        invariant todo <= processes.Keys
        invariant done <= Runs(processes)
        invariant forall id :: id in processes.Keys - todo ==> processes[id].run in done
        invariant runFences == old(runFences) + map run | run in done :: EVERY_GENERATION
        decreases todo
      {
        var id :| id in todo;
        todo := todo - {id};
        done := done + {processes[id].run};
        runFences := runFences[processes[id].run := EVERY_GENERATION];
      }
      assert done == Runs(processes);
    }

    /** Raise the flag, then stop process by process, with other goroutines in between:
        at the end every process is over or told to stop, and none can join any more. */
    method BeginShutdown()
      requires Valid()
      modifies this
      ensures Valid() && old(history) <= history && shuttingDown
      ensures forall id :: id in processes ==> Leaving(processes[id])
    {
      shuttingDown := true;
      Record(Shutdown);
      ghost var raised := |history| - 1;
      StopAll();
      RunOnlyLeaves(history, raised, |history| - 1);
    }

    /** Everything that runs, or whose cleanup failed, is stopped one by one. */
    method StopAll()
      requires Valid()
      modifies this
      ensures Valid() && old(history) <= history
      ensures forall id :: id in old(processes) ==> id in processes && Leaving(processes[id])
      ensures old(shuttingDown) ==> shuttingDown && forall id :: id in processes ==> Leaving(processes[id])
    {
      hide OnlyLeaves;
      ghost var start := |history| - 1;
      var ids := Unfinished();
      for i := 0 to |ids|
        invariant Valid() && old(history) <= history
        invariant forall j :: 0 <= j < i ==> ids[j] in processes && Leaving(processes[ids[j]])
      {
        ghost var before := history;
        Others();
        RunOnlyLeaves(history, |before| - 1, |history| - 1);
        RunOnlyLeaves(history, start, |history| - 1);
        ghost var mid := View();
        StillLeaving(before[|before| - 1], mid, ids[..i]);
        KeptSince(history[start], mid, ids[i]);
        var found := StopNode(ids[i]);
        StepOnlyLeaves(mid, Step.StopNode(ids[i]));
        StillLeaving(mid, View(), ids[..i]);
        StopLeaves(mid, ids[i]);
        assert forall j :: 0 <= j < i ==> ids[j] in ids[..i];
      }
      RunOnlyLeaves(history, start, |history| - 1);
      AllLeave(history[start], View(), ids);
    }

    // The candidates, read under the lock.
    method Unfinished() returns (ids: seq<ID>)
      ensures forall id :: id in ids <==> id in processes && (!processes[id].exited || processes[id].cleanupFailed)
    {
      ids := [];
      var todo := processes.Keys;
      while todo != {}
        invariant todo <= processes.Keys
        invariant forall id :: id in ids <==> id in processes && id !in todo && (!processes[id].exited || processes[id].cleanupFailed)
        decreases todo
      {
        var id :| id in todo;
        todo := todo - {id};
        if !processes[id].exited || processes[id].cleanupFailed { ids := ids + [id]; }
      }
    }

    /** Wait for the containers of a fenced generation. Success means they are settled for
        good, whatever other goroutines did between the critical sections. */
    method WaitRunContainers(run: ID, generation: nat) returns (ok: bool)
      requires Valid() && generation <= EVERY_GENERATION
      modifies this
      ensures Valid() && old(history) <= history
      ensures ok && Fenced(old(View()), run, generation) ==>
                forall id :: id in processes && Matches(processes[id], run, generation) ==> Settled(processes[id])
      ensures !ok ==> exists k :: |old(history)| <= k + 1 <= |history| && SomeUnsettled(history[k], run, generation)
    {
      Facts();
      ghost var start := |history| - 1;
      var pending := Pending(run, generation);
      ghost var taken, at := View(), start;
      ok := true;
      for i := 0 to |pending|
        invariant Valid() && old(history) <= history && start < |history| && history[start] == taken
        invariant ok ==> forall j :: 0 <= j < i ==>
                    pending[j].0 in processes && Settled(processes[pending[j].0])
        invariant start <= at < |history| && (!ok ==> SomeUnsettled(history[at], run, generation))
      {
        ghost var h0 := history;
        Others();
        ghost var h1 := history;
        if pending[i] !in closed {
          StillOpen(history, start, |history| - 1, pending[i].0, run, generation);
          return false;
        }
        Others();
        LaterView(|h0| - 1);
        LaterView(|h1| - 1);
        LaterView(start);
        var id := pending[i].0;
        assert KeepsProcess(taken, View(), id);
        if processes[id].cleanupFailed {
          ok, at := false, |history| - 1;
          assert id in history[at].processes && Matches(history[at].processes[id], run, generation);
        } else {
          StillClosed(history, |h1| - 1, |history| - 1, pending[i]);
          SeenIsSettled(history, id, start, |history| - 1);
        }
        assert forall j :: 0 <= j < i ==> KeepsProcess(h0[|h0| - 1], View(), pending[j].0);
      }
      LaterView(start);
      if ok && Fenced(taken, run, generation) {
        FenceStands(taken, View(), run, generation);
        forall id | id in processes && Matches(processes[id], run, generation) ensures Settled(processes[id]) {
          assert KeepsProcess(taken, View(), id);
          var c := (id, taken.processes[id].attempt);
          assert c in pending;
          var j :| 0 <= j < |pending| && pending[j] == c;
        }
      }
    }

    method Pending(run: ID, generation: nat) returns (pending: seq<Channel>)
      ensures forall id :: id in processes && Matches(processes[id], run, generation) ==>
                (id, processes[id].attempt) in pending
      ensures forall c :: c in pending ==> c.0 in processes && c.1 == processes[c.0].attempt && Matches(processes[c.0], run, generation)
    {
      pending := [];
      var todo := processes.Keys;
      while todo != {}
        invariant todo <= processes.Keys
        invariant forall id :: id in processes && id !in todo && Matches(processes[id], run, generation) ==>
                    (id, processes[id].attempt) in pending
        invariant forall c :: c in pending ==> c.0 in processes && c.1 == processes[c.0].attempt && Matches(processes[c.0], run, generation)
        decreases todo
      {
        var id :| id in todo;
        todo := todo - {id};
        if processes[id].run == run && processes[id].generation <= generation {
          pending := pending + [(id, processes[id].attempt)];
        }
      }
    }

    lemma LaterView(i: nat)
      requires Valid() && i < |history|
      ensures Coherent(history[i]) && Small(history[i]) && Later(history[i], View()) && Small(View())
    {
      StartIsCoherent(history);
      RunKeeps(history, 0, i);
      RunKeeps(history, i, |history| - 1);
    }
  }

  lemma NextKeepsClosed(a: Agent, b: Agent, c: Channel)
    requires Next(a, b) && c in a.closed
    ensures c in b.closed
  {
    var step :| Enabled(a, step) && InRange(step) && b == Apply(a, step);
  }

  // A container of the run is still there, or its removal has failed.
  ghost predicate SomeUnsettled(a: Agent, run: ID, generation: nat) {
    exists id :: id in a.processes && a.processes[id].run == run && a.processes[id].generation <= generation &&
      (!a.processes[id].exited || a.processes[id].cleanupFailed)
  }

  // A captured channel that is still open belongs to a process that is not over.
  lemma StillOpen(run: seq<Agent>, capture: nat, read: nat, id: ID, runID: ID, generation: nat)
    requires IsRun(run) && capture <= read < |run| && Coherent(run[capture]) && Small(run[capture])
    requires id in run[capture].processes && Matches(run[capture].processes[id], runID, generation)
    requires (id, run[capture].processes[id].attempt) !in run[read].closed
    ensures SomeUnsettled(run[read], runID, generation)
  {
    RunKeeps(run, capture, read);
    RunKeepsFailure(run, capture, read, id);
    assert KeepsProcess(run[capture], run[read], id) && CoherentAt(run[read], id);
    assert !AttemptOver(run[read], id, run[capture].processes[id].attempt);
  }

  // Closed channels stay closed.
  lemma {:induction false} StillClosed(run: seq<Agent>, i: nat, j: nat, c: Channel)
    requires IsRun(run) && i <= j < |run| && c in run[i].closed
    ensures c in run[j].closed
  {
    if i < j {
      StillClosed(run, i, j - 1, c);
      assert Next(run[j - 1], run[j - 1 + 1]);
      NextKeepsClosed(run[j - 1], run[j], c);
    }
  }
}
