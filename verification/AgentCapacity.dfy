/** Capacity edits: how an operator's limit travels from the Controller to one Agent
    instance while placement keeps running.

    Reports may be lost, repeated, delayed and reordered; responses carrying the desired
    limit arrive in order or not at all; the Controller may restart, keeping only the
    saved overrides. Placement must never exceed what the Agent enforces.
 */
module AgentCapacity {
  import opened Model

  // The Controller's record of one Agent. 0 means: no override, no revision yet.
  datatype Settings = Settings(
    default: nat, reported: nat, override: nat, revision: nat,
    known: bool, capacity: nat, acknowledged: nat, pending: bool)

  datatype Report = Report(capacity: nat, revision: nat)

  datatype Header = Header(capacity: nat, revision: nat)

  function Desired(s: Settings): nat { if s.override > 0 then s.override else s.default }

  // The placement rule. A reduction acts at once; only an acknowledgement of the current
  // revision may raise the last safe limit.
  function Placement(s: Settings): Settings {
    var desired := Desired(s);
    if desired == 0 then s.(capacity := s.reported, pending := false)
    else
      var pending := s.reported != desired || s.acknowledged != s.revision;
      var base := if s.reported == 0 || desired < s.reported then desired else s.reported;
      s.(capacity := if pending && s.capacity > 0 && s.capacity < base then s.capacity else base, pending := pending)
  }

  function Observe(s: Settings, r: Report, next: nat): Settings {
    var revision := if s.default > 0 && s.revision == 0 then next else s.revision;
    Placement(s.(known := true, revision := revision, reported := r.capacity, acknowledged := r.revision))
  }

  function Edit(s: Settings, override: nat, next: nat): Settings {
    Placement(s.(override := override, revision := next))
  }

  function Advertised(s: Settings): Header { Header(Desired(s), s.revision) }

  // ------------------------------------------------------------- the protocol

  // `limit` and `revision` are what the Agent enforces; `issued` counts fresh revisions.
  datatype World = World(
    controller: Settings, limit: nat, revision: nat,
    reports: set<Report>, headers: seq<Header>, issued: nat)

  datatype Step =
    | SendReport
    | ReceiveReport(report: Report)
    | IgnoreReport(report: Report)
    | SendHeader
    | ReceiveHeader
    | LoseHeader(i: nat)
    | EditCapacity(override: nat)
    | Restart

  predicate Enabled(w: World, step: Step) {
    match step
    case ReceiveReport(r) => r in w.reports
    case IgnoreReport(r) => r in w.reports
    case SendHeader => w.controller.known
    case ReceiveHeader => w.headers != []
    case LoseHeader(i) => i < |w.headers|
    case EditCapacity(_) => w.controller.known
    case _ => true
  }

  function Apply(w: World, step: Step): World
    requires Enabled(w, step)
  {
    match step
    case SendReport => w.(reports := w.reports + {Report(w.limit, w.revision)})
    case ReceiveReport(r) => w.(controller := Observe(w.controller, r, w.issued + 1), issued := w.issued + 1)
    case IgnoreReport(_) => w
    case SendHeader => w.(headers := w.headers + [Advertised(w.controller)])
    case ReceiveHeader =>
      w.(limit := w.headers[0].capacity, revision := w.headers[0].revision, headers := w.headers[1..])
    case LoseHeader(i) => w.(headers := w.headers[..i] + w.headers[i + 1..])
    case EditCapacity(override) =>
      w.(controller := Edit(w.controller, override, w.issued + 1), issued := w.issued + 1)
    case Restart =>
      // Overrides are on disk; everything else, and what was under way, is gone.
      w.(controller := Settings(w.controller.default, 0, w.controller.override, 0, false, 0, 0, false),
         reports := {}, headers := [])
  }

  function Initial(default: nat, override: nat): World {
    World(Settings(default, 0, override, 0, false, 0, 0, false), default, 0, {}, [], 0)
  }

  function Run(w: World, steps: seq<Step>): World
    requires AllEnabled(w, steps)
    decreases steps, 1
  {
    if steps == [] then w else Apply(Run(w, steps[..|steps| - 1]), steps[|steps| - 1])
  }

  predicate AllEnabled(w: World, steps: seq<Step>)
    decreases steps, 0
  {
    steps == [] ||
    (AllEnabled(w, steps[..|steps| - 1]) && Enabled(Run(w, steps[..|steps| - 1]), steps[|steps| - 1]))
  }

  // -------------------------------------------------------------- invariant

  // Revisions only grow along the way Controller -> headers -> Agent -> reports.
  predicate Ordered(w: World) {
    && w.controller.revision <= w.issued && w.controller.acknowledged <= w.issued
    && w.revision <= w.issued
    && (w.controller.known ==> w.controller.revision > 0)
    && (!w.controller.known ==> w.controller.revision == 0 && w.controller.capacity == 0 && w.headers == [])
    && (forall i :: 0 <= i < |w.headers| ==> w.headers[i].revision <= w.controller.revision)
    && (forall i, j :: 0 <= i <= j < |w.headers| ==> w.headers[i].revision <= w.headers[j].revision)
    && (forall r :: r in w.reports ==> r.revision <= w.issued)
  }

  // Whoever carries the current revision carries the desired limit, and so does
  // everything behind it.
  predicate Current(w: World) {
    var c := w.controller;
    && (forall i :: 0 <= i < |w.headers| && w.headers[i].revision == c.revision ==> w.headers[i].capacity == Desired(c))
    && (w.revision == c.revision && c.known ==>
          w.limit == Desired(c) && forall i :: 0 <= i < |w.headers| ==> w.headers[i].revision == c.revision)
    && (forall r :: r in w.reports && r.revision == c.revision && c.known ==>
          r.capacity == Desired(c) && w.revision == c.revision)
    && (!c.known ==> forall r :: r in w.reports ==> r.capacity == w.limit)
  }

  predicate Safe(w: World) {
    w.controller.known ==>
      && w.controller.reported > 0
      && 0 < w.controller.capacity <= w.limit
      && w.controller.capacity <= Desired(w.controller)
      && forall i :: 0 <= i < |w.headers| ==> w.controller.capacity <= w.headers[i].capacity
  }

  predicate Positive(w: World) {
    w.limit > 0 && w.controller.default > 0 && forall r :: r in w.reports ==> r.capacity > 0
  }

  predicate HeadersPositive(w: World) {
    forall i :: 0 <= i < |w.headers| ==> w.headers[i].capacity > 0
  }

  predicate Inv(w: World) { Ordered(w) && Current(w) && Safe(w) && Positive(w) && HeadersPositive(w) }

  // The placement rule under the invariant: at most the previous value unless acknowledged.
  lemma PlacementBounds(s: Settings)
    requires s.default > 0 && s.reported > 0
    ensures Placement(s) == s.(capacity := Placement(s).capacity, pending := Placement(s).pending)
    ensures 0 < Placement(s).capacity <= Desired(s) == Desired(Placement(s))
    ensures Placement(s).capacity <= s.reported
    ensures s.capacity > 0 && Placement(s).pending ==> Placement(s).capacity <= s.capacity
    ensures !Placement(s).pending ==> s.acknowledged == s.revision && Placement(s).capacity == Desired(s) == s.reported
  {
  }

  lemma ReceiveReportKeeps(w: World, r: Report)
    requires Inv(w) && r in w.reports
    ensures Inv(Apply(w, ReceiveReport(r)))
  {
    var c, v := w.controller, Apply(w, ReceiveReport(r));
    var s := c.(known := true, revision := if c.revision == 0 then w.issued + 1 else c.revision,
                reported := r.capacity, acknowledged := r.revision);
    assert v.controller == Placement(s);
    PlacementBounds(s);
    assert c.known && r.revision == c.revision ==> w.revision == c.revision && w.limit == Desired(c);
  }

  lemma EditKeeps(w: World, override: nat)
    requires Inv(w) && w.controller.known && w.controller.reported > 0
    ensures Inv(Apply(w, EditCapacity(override)))
  {
    PlacementBounds(w.controller.(override := override, revision := w.issued + 1));
  }

  lemma ReceiveHeaderKeeps(w: World)
    requires Inv(w) && w.headers != []
    ensures Inv(Apply(w, ReceiveHeader))
  {
    var v := Apply(w, ReceiveHeader);
    forall i | 0 <= i < |v.headers| ensures v.headers[i] == w.headers[i + 1] && w.headers[0].revision <= v.headers[i].revision {}
  }

  lemma SendHeaderKeeps(w: World)
    requires Inv(w) && w.controller.known
    ensures Inv(Apply(w, SendHeader))
  {
  }

  lemma LoseHeaderKeeps(w: World, k: nat)
    requires Inv(w) && k < |w.headers|
    ensures Inv(Apply(w, LoseHeader(k)))
  {
    var v := Apply(w, LoseHeader(k));
    forall i | 0 <= i < |v.headers| ensures v.headers[i] == w.headers[if i < k then i else i + 1] {}
  }

  lemma StepKeepsInv(w: World, step: Step)
    requires Inv(w) && Enabled(w, step)
    ensures Inv(Apply(w, step))
  {
    match step
    case ReceiveReport(r) => ReceiveReportKeeps(w, r);
    case SendHeader => SendHeaderKeeps(w);
    case ReceiveHeader => ReceiveHeaderKeeps(w);
    case LoseHeader(i) => LoseHeaderKeeps(w, i);
    case EditCapacity(override) => EditKeeps(w, override);
    case _ =>
  }

  /** Main result: in every reachable state the placement capacity is positive and exceeds
      neither the limit the Agent enforces nor the desired value. */
  lemma {:induction false} PlacementIsSafe(default: nat, override: nat, steps: seq<Step>)
    requires default > 0 && AllEnabled(Initial(default, override), steps)
    ensures var w := Run(Initial(default, override), steps);
            Inv(w) && (w.controller.known ==>
              0 < w.controller.capacity <= w.limit && w.controller.capacity <= Desired(w.controller))
  {
    if steps != [] {
      var n := |steps| - 1;
      PlacementIsSafe(default, override, steps[..n]);
      StepKeepsInv(Run(Initial(default, override), steps[..n]), steps[n]);
    }
  }

  /** Placement rises only on a report that carries the current revision. */
  lemma RisesOnlyOnAcknowledgement(w: World, step: Step)
    requires Inv(w) && Enabled(w, step) && w.controller.known
    requires Apply(w, step).controller.known && w.controller.capacity < Apply(w, step).controller.capacity
    ensures step.ReceiveReport? && step.report.revision == w.controller.revision == w.revision
  {
  }

  /** And such a report ends the transition: the desired value is in force on both sides. */
  lemma AcknowledgementSettles(w: World, r: Report)
    requires Inv(w) && w.controller.known && r in w.reports && r.revision == w.controller.revision
    ensures var v := Apply(w, ReceiveReport(r));
            v.controller.capacity == Desired(v.controller) == v.limit && !v.controller.pending
  {
    var s := w.controller.(reported := r.capacity, acknowledged := r.revision);
    assert w.revision == w.controller.revision && w.limit == Desired(w.controller);
    PlacementBounds(s);
    assert Desired(s) == r.capacity && Placement(s).capacity == Desired(s);
    assert Apply(w, ReceiveReport(r)).controller == Placement(s);
  }

  // What the rule makes of a desired and a reported limit: while they or the revisions differ
  // it stays at the last safe limit or goes below it, otherwise it is the desired limit.
  ghost predicate Placed(desired: nat, reported: nat, current: bool, last: nat, capacity: nat, pending: bool) {
    if desired == 0 then capacity == reported && !pending
    else
      && (pending <==> reported != desired || !current)
      && (pending ==> capacity == MinInt(if last > 0 then last else desired, MinInt(if reported > 0 then reported else desired, desired)))
      && (!pending ==> capacity == desired)
  }

  /** Exact placement: while an edit is under way it is the least of the last safe limit, the
      reported and the desired one, and once it is acknowledged it is the desired one. */
  lemma PlacementIsExact(s: Settings)
    ensures var t := Placement(s);
      && t == s.(capacity := t.capacity, pending := t.pending)
      && Placed(if s.override > 0 then s.override else s.default, s.reported, s.acknowledged == s.revision, s.capacity, t.capacity, t.pending)
  {
  }

  /** Over the protocol: an edit or an unacknowledged report places the least of the three. */
  lemma PendingPlacement(w: World, step: Step)
    requires Inv(w) && Enabled(w, step) && w.controller.known && (step.EditCapacity? || step.ReceiveReport?)
    requires step.ReceiveReport? ==> step.report.revision != w.controller.revision
    ensures var c, d := w.controller, Apply(w, step).controller;
      var reported := if step.ReceiveReport? then step.report.capacity else c.reported;
      d.pending && d.capacity == MinInt(c.capacity, MinInt(reported, Desired(d)))
  {
    var c := w.controller;
    match step
    case EditCapacity(override) => PlacementIsExact(c.(override := override, revision := w.issued + 1));
    case ReceiveReport(r) => PlacementIsExact(c.(reported := r.capacity, acknowledged := r.revision));
  }

  // ------------------------------------------------------- program's form

  class State {
    var defaults: map<ID, nat>
    var reportedCapacities: map<ID, nat>
    var overrides: map<ID, nat>
    var revisions: map<ID, nat>
    // The placement part of the Agent records.
    var capacities: map<ID, nat>
    var acknowledged: map<ID, nat>
    var pending: map<ID, bool>
    var issued: nat

    static function At(m: map<ID, nat>, id: ID): nat { if id in m then m[id] else 0 }

    ghost function View(id: ID): Settings
      reads this
    {
      Settings(At(defaults, id), At(reportedCapacities, id), At(overrides, id), At(revisions, id),
               id in capacities, At(capacities, id), At(acknowledged, id), id in pending && pending[id])
    }

    // The saved override, or the Agent's default.
    ghost function Wanted(id: ID): nat
      reads this
    {
      if id in overrides && overrides[id] > 0 then overrides[id] else if id in defaults then defaults[id] else 0
    }

    constructor (saved: map<ID, nat>, ids: map<ID, nat>)
      ensures forall id :: View(id) == Settings(At(ids, id), 0, At(saved, id), 0, false, 0, 0, false)
    {
      defaults, overrides := ids, saved;
      reportedCapacities, revisions, capacities, acknowledged, pending, issued := map[], map[], map[], map[], map[], 0;
    }

    method FreshRevision() returns (revision: nat)
      modifies this`issued
      ensures revision == issued == old(issued) + 1
    {
      issued := issued + 1;
      revision := issued;
    }

    /** A registration or heartbeat report is applied to its Agent's record alone. */
    method ObserveCapacity(id: ID, r: Report)
      modifies this
      ensures issued >= old(issued)
      ensures View(id) == Observe(old(View(id)), r, old(issued) + 1)
      ensures id in capacities && At(reportedCapacities, id) == r.capacity && At(acknowledged, id) == r.revision
      ensures At(revisions, id) == if old(At(defaults, id)) > 0 && old(At(revisions, id)) == 0 then issued else old(At(revisions, id))
      ensures Placed(Wanted(id), r.capacity, r.revision == At(revisions, id), old(At(capacities, id)),
                     At(capacities, id), id in pending && pending[id])
      ensures forall other :: other != id ==> View(other) == old(View(other))
    {
      if At(defaults, id) > 0 && At(revisions, id) == 0 {
        var next := FreshRevision();
        revisions := revisions[id := next];
      }
      reportedCapacities := reportedCapacities[id := r.capacity];
      ApplyCapacity(id, r.revision);
    }

    method ApplyCapacity(id: ID, revision: nat)
      modifies this`capacities, this`acknowledged, this`pending
      ensures View(id) == Placement(old(View(id)).(acknowledged := revision, known := true))
      ensures Placed(Wanted(id), At(reportedCapacities, id), revision == At(revisions, id), old(At(capacities, id)),
                     At(capacities, id), id in pending && pending[id])
      ensures forall other :: other != id ==> View(other) == old(View(other))
    {
      PlacementIsExact(View(id).(acknowledged := revision, known := true));
      hide Placed;
      var reported := At(reportedCapacities, id);
      var desired := At(defaults, id);
      if At(overrides, id) > 0 { desired := At(overrides, id); }
      var capacity, waiting := reported, false;
      if desired > 0 {
        waiting := reported != desired || revision != At(revisions, id);
        if reported == 0 || desired < reported { capacity := desired; }
        var previous := At(capacities, id);
        if waiting && previous > 0 && previous < capacity { capacity := previous; }
      }
      capacities := capacities[id := capacity];
      acknowledged := acknowledged[id := revision];
      pending := pending[id := waiting];
    }

    /** An edit: refused without a known Agent or a default; a failed save changes nothing. */
    method SetCapacity(id: ID, capacity: nat, saved: bool) returns (ok: bool)
      modifies this
      ensures ok <==> id in old(capacities) && old(At(defaults, id)) > 0 && saved
      ensures ok ==> overrides == old(overrides)[id := capacity] && At(revisions, id) == issued > old(issued)
      ensures ok ==> Placed(Wanted(id), At(reportedCapacities, id), At(acknowledged, id) == At(revisions, id),
                            old(At(capacities, id)), At(capacities, id), id in pending && pending[id])
      ensures ok ==> id in old(capacities) && old(At(defaults, id)) > 0
                     && View(id) == Edit(old(View(id)), capacity, old(issued) + 1)
      ensures !ok ==> View(id) == old(View(id))
      ensures forall other :: other != id ==> View(other) == old(View(other))
    {
      if id !in capacities || At(defaults, id) == 0 || !saved { return false; }
      overrides := overrides[id := capacity];
      var next := FreshRevision();
      revisions := revisions[id := next];
      ApplyCapacity(id, At(acknowledged, id));
      ok := true;
    }

    method CapacityHeader(id: ID) returns (header: Option<Header>)
      ensures header == if Desired(View(id)) > 0 then Some(Advertised(View(id))) else None
      ensures header == if Wanted(id) > 0 then Some(Header(Wanted(id), At(revisions, id))) else None
    {
      var desired := At(defaults, id);
      if At(overrides, id) > 0 { desired := At(overrides, id); }
      header := if desired > 0 then Some(Header(desired, At(revisions, id))) else None;
    }
  }
}
