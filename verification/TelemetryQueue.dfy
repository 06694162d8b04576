/** The Agent's event queue above the durable spool: admission, exit markers, and a flush
    with a single request in flight whose events return to the front on any failure.
 */
module TelemetryQueue {
  import opened Model
  import opened TelemetrySpool
  import opened BlockedBatches
  import WireBatches

  const CAPACITY: nat := 50000

  // ------------------------------------------------------------- alignment

  /** The references still queued are those the spool still holds, except that an exit marker
      may be spooled without being queued: it is alone in its segment and unique. */
  ghost predicate Matched(rs: seq<Ref>, pending: seq<Ref>, p: Ref -> bool) {
    || Keep(rs, p) == Keep(pending, p)
    || (Keep(rs, p) == [] && |Keep(pending, p)| == 1 && Keep(pending, p)[0].event.Terminated?)
  }

  ghost predicate Matching(rs: seq<Ref>, pending: seq<Ref>) {
    && (forall e :: Matched(rs, pending, ByEvent(e)))
    && (forall n :: Matched(rs, pending, BySegment(n)))
  }

  // An exit marker that waits outside the queue, spooled as `r`.
  ghost predicate WaitsAs(e: Event, r: Ref, rs: seq<Ref>, pending: seq<Ref>) {
    && e.Terminated? && r.event == e
    && Keep(pending, ByEvent(e)) == [r] && Keep(rs, ByEvent(e)) == []
    && Keep(pending, BySegment(r.segment)) == [r] && Keep(rs, BySegment(r.segment)) == []
  }

  ghost predicate Waits(e: Event, rs: seq<Ref>, pending: seq<Ref>) { exists r :: WaitsAs(e, r, rs, pending) }

  // A flush takes the oldest queued references.
  lemma FrontIsAligned(rs: seq<Ref>, pending: seq<Ref>, k: nat)
    requires Matching(rs, pending) && k <= |rs|
    ensures Aligned(rs[..k], pending)
  {
    hide Keep;
    forall e ensures Keep(rs[..k], ByEvent(e)) <= Keep(pending, ByEvent(e)) {
      assert Matched(rs, pending, ByEvent(e));
      KeepPrefix(rs, k, ByEvent(e));
    }
    forall n ensures Keep(rs[..k], BySegment(n)) <= Keep(pending, BySegment(n)) {
      assert Matched(rs, pending, BySegment(n));
      KeepPrefix(rs, k, BySegment(n));
    }
  }

  // Appending the same references to both sides.
  lemma MatchedGrows(rs: seq<Ref>, pending: seq<Ref>, added: seq<Ref>, p: Ref -> bool)
    requires Keep(rs, p) == Keep(pending, p) || (Matched(rs, pending, p) && Keep(added, p) == [])
    ensures Matched(rs + added, pending + added, p)
  {
    hide Keep;
    KeepConcat(rs, added, p);
    KeepConcat(pending, added, p);
  }

  ghost predicate Fresh(pending: seq<Ref>, name: nat) { forall r :: r in pending ==> r.segment < name }

  lemma KeepFresh(rs: seq<Ref>, pending: seq<Ref>, name: nat)
    requires Fresh(pending, name) && Matching(rs, pending)
    ensures Keep(pending, BySegment(name)) == [] && Keep(rs, BySegment(name)) == []
  {
    hide Keep;
    KeepNone(pending, BySegment(name));
    assert Matched(rs, pending, BySegment(name));
  }

  // Only an exit marker can wait outside the queue.
  lemma TracesMatch(rs: seq<Ref>, pending: seq<Ref>, e: Event)
    requires Matched(rs, pending, ByEvent(e)) && e.Trace?
    ensures Keep(rs, ByEvent(e)) == Keep(pending, ByEvent(e))
  {
    hide Keep;
    KeepMembers(pending, ByEvent(e));
    if |Keep(pending, ByEvent(e))| == 1 { assert Keep(pending, ByEvent(e))[0] in Keep(pending, ByEvent(e)); }
  }

  // A new segment of trace events refers to no exit marker and to no other segment.
  lemma NoMarkerAdded(name: nat, batch: seq<Event>, e: Event)
    requires (forall x :: x in batch ==> x.Trace?) && !e.Trace?
    ensures Keep(NewRefs(name, batch), ByEvent(e)) == []
  {
    hide Keep;
    forall r | r in NewRefs(name, batch) ensures !ByEvent(e)(r) {
      var i :| 0 <= i < |batch| && NewRefs(name, batch)[i] == r;
      assert r.event == batch[i] && batch[i] in batch;
    }
    KeepNone(NewRefs(name, batch), ByEvent(e));
  }

  lemma OneSegmentAdded(name: nat, batch: seq<Event>, n: nat)
    requires n != name
    ensures Keep(NewRefs(name, batch), BySegment(n)) == []
  {
    hide Keep;
    forall r | r in NewRefs(name, batch) ensures !BySegment(n)(r) {
      var i :| 0 <= i < |batch| && NewRefs(name, batch)[i] == r;
    }
    KeepNone(NewRefs(name, batch), BySegment(n));
  }

  lemma EnqueueMatches(rs: seq<Ref>, pending: seq<Ref>, name: nat, batch: seq<Event>)
    requires Matching(rs, pending) && Fresh(pending, name) && forall e :: e in batch ==> e.Trace?
    ensures Matching(rs + NewRefs(name, batch), pending + NewRefs(name, batch))
  {
    hide Keep;
    var added := NewRefs(name, batch);
    forall e ensures Matched(rs + added, pending + added, ByEvent(e)) {
      assert Matched(rs, pending, ByEvent(e));
      if e.Trace? {
        TracesMatch(rs, pending, e);
      } else {
        NoMarkerAdded(name, batch, e);
      }
      MatchedGrows(rs, pending, added, ByEvent(e));
    }
    forall n ensures Matched(rs + added, pending + added, BySegment(n)) {
      assert Matched(rs, pending, BySegment(n));
      if n == name { KeepFresh(rs, pending, name); } else { OneSegmentAdded(name, batch, n); }
      MatchedGrows(rs, pending, added, BySegment(n));
    }
  }

  // Spooling a new exit marker.
  lemma MarkerMatches(rs: seq<Ref>, pending: seq<Ref>, name: nat, e: Event)
    requires Matching(rs, pending) && Fresh(pending, name) && e.Terminated? && Keep(pending, ByEvent(e)) == []
    ensures Matching(rs, pending + [Ref(name, 0, e)])
    ensures WaitsAs(e, Ref(name, 0, e), rs, pending + [Ref(name, 0, e)])
  {
    hide Keep;
    var r := Ref(name, 0, e);
    forall x ensures Matched(rs, pending + [r], ByEvent(x)) {
      assert Matched(rs, pending, ByEvent(x));
      KeepSnoc(pending, r, ByEvent(x));
    }
    forall n ensures Matched(rs, pending + [r], BySegment(n)) {
      assert Matched(rs, pending, BySegment(n));
      KeepSnoc(pending, r, BySegment(n));
      if n == name { KeepFresh(rs, pending, name); }
    }
    KeepSnoc(pending, r, ByEvent(e));
    KeepFresh(rs, pending, name);
    KeepSnoc(pending, r, BySegment(name));
    assert Matched(rs, pending, ByEvent(e));
  }

  // Appending references of other events to a fresh segment leaves a waiting marker waiting.
  lemma StillWaits(e: Event, rs: seq<Ref>, pending: seq<Ref>, more: seq<Ref>, added: seq<Ref>, name: nat)
    requires Waits(e, rs, pending) && Fresh(pending, name)
    requires forall r :: r in more || r in added ==> r.event != e && r.segment == name
    ensures Waits(e, rs + more, pending + added)
  {
    hide Keep;
    var r :| WaitsAs(e, r, rs, pending);
    KeepMembers(pending, ByEvent(e));
    assert r in [r];
    assert r in pending;
    KeepConcat(rs, more, ByEvent(e));
    KeepConcat(pending, added, ByEvent(e));
    KeepConcat(rs, more, BySegment(r.segment));
    KeepConcat(pending, added, BySegment(r.segment));
    KeepNone(more, ByEvent(e));
    KeepNone(added, ByEvent(e));
    KeepNone(more, BySegment(r.segment));
    KeepNone(added, BySegment(r.segment));
    assert WaitsAs(e, r, rs + more, pending + added);
  }

  // A waiting marker enters the queue.
  lemma AdmitMatches(rs: seq<Ref>, pending: seq<Ref>, e: Event, r: Ref)
    requires Matching(rs, pending) && WaitsAs(e, r, rs, pending)
    ensures Matching(rs + [r], pending)
  {
    hide Keep;
    KeepMembers(pending, ByEvent(e));
    assert r in [r];
    forall x ensures Matched(rs + [r], pending, ByEvent(x)) {
      assert Matched(rs, pending, ByEvent(x));
      KeepSnoc(rs, r, ByEvent(x));
    }
    forall n ensures Matched(rs + [r], pending, BySegment(n)) {
      assert Matched(rs, pending, BySegment(n));
      KeepSnoc(rs, r, BySegment(n));
    }
  }

  lemma AdmitLeavesWaiting(rs: seq<Ref>, pending: seq<Ref>, e: Event, r: Ref, other: Event)
    requires WaitsAs(e, r, rs, pending) && Waits(other, rs, pending) && other != e
    ensures Waits(other, rs + [r], pending)
  {
    hide Keep;
    var o :| WaitsAs(other, o, rs, pending);
    KeepSnoc(rs, r, ByEvent(other));
    assert [o][0] == o && [r][0] == r;
    KeepSnoc(rs, r, BySegment(o.segment));
    assert WaitsAs(other, o, rs + [r], pending);
  }

  // The front of both sides leaves.
  lemma DropFront(whole: seq<Ref>, front: seq<Ref>, back: seq<Ref>, gone: set<Ref>, p: Ref -> bool)
    requires Distinct(whole) && whole == front + back
    requires forall r :: r in front ==> r in gone
    requires forall r :: r in gone && p(r) ==> r in front
    requires forall r :: r in whole ==> p(r)
    ensures Keep(whole, NotIn(gone)) == back
  {
    hide Keep;
    KeepConcat(front, back, NotIn(gone));
    KeepNone(front, NotIn(gone));
    forall r | r in back ensures r !in gone {
      var j :| 0 <= j < |back| && back[j] == r;
      assert whole[|front| + j] == r;
      assert forall i :: 0 <= i < |front| ==> front[i] == whole[i] && front[i] != r;
    }
    KeepAll(back, NotIn(gone));
  }

  lemma SettledMatches(rs: seq<Ref>, pending: seq<Ref>, k: nat, p: Ref -> bool)
    requires Matched(rs, pending, p) && Distinct(pending) && k <= |rs|
    ensures Matched(rs[k..], Keep(pending, NotIn(Set(rs[..k]))), p)
  {
    hide Keep;
    var front, back, gone := rs[..k], rs[k..], Set(rs[..k]);
    assert rs == front + back;
    KeepConcat(front, back, p);
    KeepCommutes(pending, NotIn(gone), p);
    KeepMembers(front, p);
    if Keep(rs, p) == Keep(pending, p) {
      KeepDistinct(pending, p);
      KeepMembers(pending, p);
      DropFront(Keep(pending, p), Keep(front, p), Keep(back, p), gone, p);
    } else {
      KeepUntouched(pending, p, gone);
    }
  }

  lemma SettledKeeps(rs: seq<Ref>, pending: seq<Ref>, k: nat)
    requires Matching(rs, pending) && Distinct(pending) && k <= |rs|
    ensures Matching(rs[k..], Keep(pending, NotIn(Set(rs[..k]))))
  {
    hide Keep;
    forall e ensures Matched(rs[k..], Keep(pending, NotIn(Set(rs[..k]))), ByEvent(e)) {
      assert Matched(rs, pending, ByEvent(e));
      SettledMatches(rs, pending, k, ByEvent(e));
    }
    forall n ensures Matched(rs[k..], Keep(pending, NotIn(Set(rs[..k]))), BySegment(n)) {
      assert Matched(rs, pending, BySegment(n));
      SettledMatches(rs, pending, k, BySegment(n));
    }
  }

  lemma SettledWaits(e: Event, rs: seq<Ref>, pending: seq<Ref>, k: nat)
    requires Waits(e, rs, pending) && k <= |rs|
    ensures Waits(e, rs[k..], Keep(pending, NotIn(Set(rs[..k]))))
  {
    hide Keep;
    var r :| WaitsAs(e, r, rs, pending);
    var gone := Set(rs[..k]);
    assert rs == rs[..k] + rs[k..];
    KeepConcat(rs[..k], rs[k..], ByEvent(e));
    KeepConcat(rs[..k], rs[k..], BySegment(r.segment));
    KeepMembers(rs[..k], ByEvent(e));
    KeepMembers(rs[..k], BySegment(r.segment));
    KeepUntouched(pending, ByEvent(e), gone);
    KeepUntouched(pending, BySegment(r.segment), gone);
    assert WaitsAs(e, r, rs[k..], Keep(pending, NotIn(gone)));
  }

  // ------------------------------------------------- queue and spool in step

  // Without file errors the queue is exactly what the spool still holds, in order.
  ghost predicate InStep(rs: seq<Ref>, queued: seq<Event>, pending: seq<Ref>, terminations: map<ID, Event>) {
    && Events(rs) == queued && Matching(rs, pending)
    && forall id :: id in terminations ==> Waits(terminations[id], rs, pending)
  }

  ghost predicate Markers(terminations: map<ID, Event>) {
    forall id :: id in terminations ==> terminations[id].Terminated? && terminations[id].node == id
  }

  lemma EnqueueInStep(rs: seq<Ref>, queued: seq<Event>, pending: seq<Ref>, terminations: map<ID, Event>, name: nat, batch: seq<Event>)
    requires InStep(rs, queued, pending, terminations) && Markers(terminations) && Fresh(pending, name)
    requires forall e :: e in batch ==> e.Trace?
    ensures InStep(rs + NewRefs(name, batch), queued + batch, pending + NewRefs(name, batch), terminations)
  {
    hide Keep;
    EnqueueMatches(rs, pending, name, batch);
    assert forall r :: r in NewRefs(name, batch) ==> r.event in batch && r.segment == name;
    forall id | id in terminations ensures Waits(terminations[id], rs + NewRefs(name, batch), pending + NewRefs(name, batch)) {
      StillWaits(terminations[id], rs, pending, NewRefs(name, batch), NewRefs(name, batch), name);
    }
  }

  lemma MarkerInStep(rs: seq<Ref>, queued: seq<Event>, pending: seq<Ref>, terminations: map<ID, Event>, name: nat, e: Event)
    requires InStep(rs, queued, pending, terminations) && Markers(terminations) && Fresh(pending, name)
    requires e.Terminated? && forall r :: r in pending ==> r.event != e
    ensures InStep(rs, queued, pending + [Ref(name, 0, e)], terminations[e.node := e])
  {
    hide Keep;
    var r := Ref(name, 0, e);
    KeepNone(pending, ByEvent(e));
    MarkerMatches(rs, pending, name, e);
    assert rs + [] == rs;
    forall id | id in terminations && id != e.node ensures Waits(terminations[id], rs, pending + [r]) {
      StillWaits(terminations[id], rs, pending, [], [r], name);
    }
  }

  lemma AdmitInStep(rs: seq<Ref>, queued: seq<Event>, pending: seq<Ref>, terminations: map<ID, Event>, id: ID) returns (r: Ref)
    requires InStep(rs, queued, pending, terminations) && Markers(terminations) && id in terminations
    ensures InStep(rs + [r], queued + [terminations[id]], pending, terminations - {id}) && Keep(pending, ByEvent(terminations[id])) == [r]
  {
    hide Keep;
    var e := terminations[id];
    r :| WaitsAs(e, r, rs, pending);
    AdmitMatches(rs, pending, e, r);
    forall other | other in terminations - {id} ensures Waits(terminations[other], rs + [r], pending) {
      AdmitLeavesWaiting(rs, pending, e, r, terminations[other]);
    }
  }

  lemma SettleInStep(rs: seq<Ref>, batch: seq<Event>, rest: seq<Event>, pending: seq<Ref>, terminations: map<ID, Event>)
    requires InStep(rs, batch + rest, pending, terminations) && Distinct(pending)
    ensures var k := |batch|;
      Events(rs[..k]) == batch && Aligned(rs[..k], pending)
      && InStep(rs[k..], rest, Keep(pending, NotIn(Set(rs[..k]))), terminations)
  {
    hide Keep;
    var k := |batch|;
    FrontIsAligned(rs, pending, k);
    SettledKeeps(rs, pending, k);
    assert Events(rs[..k]) == Events(rs)[..k] && Events(rs[k..]) == Events(rs)[k..];
    forall id | id in terminations ensures Waits(terminations[id], rs[k..], Keep(pending, NotIn(Set(rs[..k])))) {
      SettledWaits(terminations[id], rs, pending, k);
    }
  }

  lemma {:induction false} RecoveredIncludes(d: Dir, n: nat, next: nat, e: Event)
    requires n < next && e in Pending(d, n)
    ensures e in Recovered(d, next)
    decreases next
  {
    if n < next - 1 { RecoveredIncludes(d, n, next - 1, e); }
  }

  lemma {:induction false} RecoveredComesFrom(d: Dir, next: nat, e: Event)
    requires e in Recovered(d, next)
    ensures exists n :: n in d.segments && e in d.segments[n]
    decreases next
  {
    if e in Recovered(d, next - 1) { RecoveredComesFrom(d, next - 1, e); } else { assert e in Pending(d, next - 1); }
  }

  // What a crash leaves behind of this Agent, as a restart finds it.
  ghost predicate Restartable(envelope: nat, img: Image, owed: map<nat, seq<Event>>, accepted: set<Event>, next: nat) {
    && Safe(img, owed, accepted) && (forall n :: n in owed ==> n < next)
    && Lawful(img.durable.segments, next, envelope, false) && Lawful(img.current.segments, next, envelope, false)
  }

  lemma SurvivorIsLawful(envelope: nat, img: Image, d: Dir, owed: map<nat, seq<Event>>, accepted: set<Event>, next: nat)
    requires Restartable(envelope, img, owed, accepted, next) && Survives(img, d)
    ensures Lawful(d.segments, next, envelope, false)
  {
    hide Admitted, Safe;
    forall n | n in d.segments ensures n < next && Admitted(envelope, d.segments[n]) {
      assert Entry(d.segments, n) == Some(d.segments[n]);
    }
  }

  lemma RestartLosesNothing(envelope: nat, d: Dir, next: nat, img: Image, owed: map<nat, seq<Event>>, accepted: set<Event>)
    requires Restartable(envelope, img, owed, accepted, next) && Survives(img, d)
    ensures Admitted(envelope, Recovered(d, next))
    ensures forall n, e :: n in owed && e in owed[n] ==> e in accepted || e in Recovered(d, next)
  {
    SurvivorIsLawful(envelope, img, d, owed, accepted, next);
    forall e | e in Recovered(d, next) && e.Trace? ensures Sendable(envelope, e) {
      RecoveredComesFrom(d, next, e);
    }
    forall n, e | n in owed && e in owed[n] ensures e in accepted || e in Recovered(d, next) {
      NothingIsLost(img, d, owed, accepted, n, e);
      if e in Pending(d, n) { RecoveredIncludes(d, n, next, e); }
    }
  }

  lemma RestartInStep(pending: seq<Ref>)
    ensures InStep(pending, Events(pending), pending, map[])
  {
  }

  // ------------------------------------------- distinct events, with file errors

  ghost predicate Unique(es: seq<Event>) { forall i, j :: 0 <= i < j < |es| ==> es[i] != es[j] }

  // The events that still have a reference, and a list of events restricted to them.
  function Alive(rs: seq<Ref>): set<Event> { set r | r in rs :: r.event }

  function Live(es: seq<Event>, alive: set<Event>): seq<Event> {
    if es == [] then []
    else Live(es[..|es| - 1], alive) + if es[|es| - 1] in alive then [es[|es| - 1]] else []
  }

  ghost predicate OneEach(rs: seq<Ref>) { forall r, s :: r in rs && s in rs && r.event == s.event ==> r == s }

  // A marker outside the queue either waits in the spool or could not be spooled.
  ghost predicate WaitsOrLost(e: Event, rs: seq<Ref>, pending: seq<Ref>) {
    Waits(e, rs, pending) || Keep(pending, ByEvent(e)) == []
  }

  /** As long as no event came twice, file errors leave this of the agreement between queue and
      spool: the queued events that still have a reference are those of `rs`, in order. The
      others were settled by a flush that failed half-way, or are markers never spooled. */
  ghost predicate Orderly(rs: seq<Ref>, queued: seq<Event>, pending: seq<Ref>, terminations: map<ID, Event>, seen: set<Event>) {
    && Unique(queued) && OneEach(pending) && Events(rs) == Live(queued, Alive(pending)) && Matching(rs, pending)
    && (forall id :: id in terminations ==> terminations[id] !in queued && WaitsOrLost(terminations[id], rs, pending))
    && (forall e :: e in queued || e in Alive(pending) || e in terminations.Values ==> e in seen)
  }

  lemma {:induction false} LiveConcat(a: seq<Event>, b: seq<Event>, alive: set<Event>)
    ensures Live(a + b, alive) == Live(a, alive) + Live(b, alive)
  {
    if b == [] {
      assert a + b == a;
    } else {
      var n := |b| - 1;
      assert (a + b)[..|a + b| - 1] == a + b[..n];
      LiveConcat(a, b[..n], alive);
    }
  }

  lemma {:induction false} LiveAgrees(es: seq<Event>, a: set<Event>, b: set<Event>)
    requires forall e :: e in es ==> (e in a <==> e in b)
    ensures Live(es, a) == Live(es, b)
  {
    if es != [] { LiveAgrees(es[..|es| - 1], a, b); }
  }

  lemma {:induction false} LiveAll(es: seq<Event>, alive: set<Event>)
    requires forall e :: e in es ==> e in alive
    ensures Live(es, alive) == es
  {
    if es != [] { LiveAll(es[..|es| - 1], alive); }
  }

  lemma {:induction false} LiveNone(es: seq<Event>, alive: set<Event>)
    requires forall e :: e in es ==> e !in alive
    ensures Live(es, alive) == []
  {
    if es != [] { LiveNone(es[..|es| - 1], alive); }
  }

  lemma {:induction false} LiveMembers(es: seq<Event>, alive: set<Event>)
    ensures forall e :: e in Live(es, alive) <==> e in es && e in alive
  {
    if es != [] {
      LiveMembers(es[..|es| - 1], alive);
      assert es == es[..|es| - 1] + [es[|es| - 1]];
    }
  }

  lemma {:induction false} LiveTwice(es: seq<Event>, a: set<Event>, b: set<Event>)
    requires b <= a
    ensures Live(Live(es, a), b) == Live(es, b)
  {
    if es != [] {
      var n := |es| - 1;
      LiveTwice(es[..n], a, b);
      LiveConcat(Live(es[..n], a), if es[n] in a then [es[n]] else [], b);
      LiveOne(es[n], b);
    }
  }

  lemma LiveOne(e: Event, alive: set<Event>)
    ensures Live([e], alive) == if e in alive then [e] else []
  {
    assert [e][..0] == [];
  }

  lemma {:induction false} LiveRefs(rs: seq<Ref>, gone: set<Ref>, alive: set<Event>)
    requires forall r :: r in rs ==> (r.event in alive <==> r !in gone)
    ensures Live(Events(rs), alive) == Events(Keep(rs, NotIn(gone)))
  {
    if rs != [] {
      var n := |rs| - 1;
      LiveRefs(rs[..n], gone, alive);
      assert Events(rs)[..n] == Events(rs[..n]);
    }
  }

  lemma RefsArePending(rs: seq<Ref>, pending: seq<Ref>)
    requires Matching(rs, pending)
    ensures forall r :: r in rs ==> r in pending
  {
    hide Keep;
    forall r | r in rs ensures r in pending {
      assert Matched(rs, pending, ByEvent(r.event));
      KeepMembers(rs, ByEvent(r.event));
      KeepMembers(pending, ByEvent(r.event));
      assert r in Keep(rs, ByEvent(r.event));
    }
  }

  // Removing the same references on both sides.
  lemma ShrinkMatches(rs: seq<Ref>, pending: seq<Ref>, gone: set<Ref>, p: Ref -> bool)
    requires Matched(rs, pending, p)
    ensures Matched(Keep(rs, NotIn(gone)), Keep(pending, NotIn(gone)), p)
  {
    KeepCommutes(rs, NotIn(gone), p);
    KeepCommutes(pending, NotIn(gone), p);
    if Keep(rs, p) != Keep(pending, p) {
      KeepOne(Keep(pending, p)[0], NotIn(gone));
      assert Keep(pending, p) == [Keep(pending, p)[0]];
    }
    hide Keep;
  }

  lemma ShrinkKeeps(rs: seq<Ref>, pending: seq<Ref>, gone: set<Ref>)
    requires Matching(rs, pending)
    ensures Matching(Keep(rs, NotIn(gone)), Keep(pending, NotIn(gone)))
  {
    hide Keep;
    var less, left := Keep(rs, NotIn(gone)), Keep(pending, NotIn(gone));
    forall e ensures Matched(less, left, ByEvent(e)) {
      assert Matched(rs, pending, ByEvent(e));
      ShrinkMatches(rs, pending, gone, ByEvent(e));
    }
    forall n ensures Matched(less, left, BySegment(n)) {
      assert Matched(rs, pending, BySegment(n));
      ShrinkMatches(rs, pending, gone, BySegment(n));
    }
  }

  lemma ShrinkWaits(e: Event, rs: seq<Ref>, pending: seq<Ref>, gone: set<Ref>)
    requires WaitsOrLost(e, rs, pending) && forall r :: r in gone ==> r in rs
    ensures WaitsOrLost(e, Keep(rs, NotIn(gone)), Keep(pending, NotIn(gone)))
  {
    hide Keep;
    KeepCommutes(rs, NotIn(gone), ByEvent(e));
    KeepCommutes(pending, NotIn(gone), ByEvent(e));
    if Keep(pending, ByEvent(e)) == [] {
      KeepAll([], NotIn(gone));
    } else {
      var r :| WaitsAs(e, r, rs, pending);
      KeepCommutes(rs, NotIn(gone), BySegment(r.segment));
      KeepCommutes(pending, NotIn(gone), BySegment(r.segment));
      KeepMembers(rs, ByEvent(e));
      assert r !in gone;
      KeepAll([], NotIn(gone));
      KeepAll([r], NotIn(gone));
      assert WaitsAs(e, r, Keep(rs, NotIn(gone)), Keep(pending, NotIn(gone)));
    }
  }

  // A flush that settles some of the queue's references leaves the rest in order.
  lemma OrderlyShrinks(rs: seq<Ref>, queued: seq<Event>, pending: seq<Ref>, terminations: map<ID, Event>, seen: set<Event>, gone: set<Ref>)
    requires Orderly(rs, queued, pending, terminations, seen) && forall r :: r in gone ==> r in rs
    ensures Orderly(Keep(rs, NotIn(gone)), queued, Keep(pending, NotIn(gone)), terminations, seen)
  {
    hide Keep, Matching, WaitsOrLost;
    var left := Keep(pending, NotIn(gone));
    KeepMembers(pending, NotIn(gone));
    ShrinkKeeps(rs, pending, gone);
    RefsArePending(rs, pending);
    LiveTwice(queued, Alive(pending), Alive(left));
    LiveRefs(rs, gone, Alive(left));
    forall id | id in terminations ensures WaitsOrLost(terminations[id], Keep(rs, NotIn(gone)), left) {
      ShrinkWaits(terminations[id], rs, pending, gone);
    }
  }

  // The settled front leaves the queue.
  lemma OrderlyDrops(rs: seq<Ref>, front: seq<Event>, rest: seq<Event>, pending: seq<Ref>, terminations: map<ID, Event>, seen: set<Event>)
    requires Orderly(rs, front + rest, pending, terminations, seen) && forall e :: e in front ==> e !in Alive(pending)
    ensures Orderly(rs, rest, pending, terminations, seen)
  {
    hide Keep, Matching, WaitsOrLost;
    LiveConcat(front, rest, Alive(pending));
    LiveNone(front, Alive(pending));
    forall i, j | 0 <= i < j < |rest| ensures rest[i] != rest[j] {
      assert (front + rest)[|front| + i] == rest[i] && (front + rest)[|front| + j] == rest[j];
    }
  }

  // How many references the batch in flight still has, and which.
  lemma OrderlyFront(refs: map<Event, seq<Ref>>, rs: seq<Ref>, batch: seq<Event>, rest: seq<Event>, pending: seq<Ref>,
                     terminations: map<ID, Event>, seen: set<Event>) returns (k: nat)
    requires Orderly(rs, batch + rest, pending, terminations, seen) && Tabled(refs, pending)
    ensures k <= |rs| && k <= |batch| && Events(rs[..k]) == Live(batch, Alive(pending)) && Owns(refs, pending, rs[..k], batch)
    ensures (forall e :: e in batch ==> e in Alive(pending)) ==> k == |batch|
  {
    hide Keep, Matching, WaitsOrLost, Selected, Aligned;
    LiveConcat(batch, rest, Alive(pending));
    k := |Live(batch, Alive(pending))|;
    LiveShort(batch, Alive(pending));
    assert Events(rs[..k]) == Events(rs)[..k];
    FrontIsAligned(rs, pending, k);
    SelectedLive(refs, pending, batch);
    if forall e :: e in batch ==> e in Alive(pending) { LiveAll(batch, Alive(pending)); }
  }

  lemma {:induction false} LiveShort(es: seq<Event>, alive: set<Event>)
    ensures |Live(es, alive)| <= |es|
  {
    if es != [] { LiveShort(es[..|es| - 1], alive); }
  }

  // Events without a reference select nothing.
  lemma {:induction false} SelectedLive(refs: map<Event, seq<Ref>>, pending: seq<Ref>, batch: seq<Event>)
    requires Tabled(refs, pending)
    ensures Selected(refs, batch) == Selected(refs, Live(batch, Alive(pending)))
  {
    if batch != [] {
      hide Keep;
      var n := |batch| - 1;
      SelectedLive(refs, pending, batch[..n]);
      assert ListedAs(refs, pending, batch[n]);
      KeepMembers(pending, ByEvent(batch[n]));
      if batch[n] in Alive(pending) {
        var live := Live(batch[..n], Alive(pending));
        assert Live(batch, Alive(pending)) == live + [batch[n]];
        assert (live + [batch[n]])[..|live|] == live;
      } else {
        NothingListed(refs, pending, batch[n]);
        assert Live(batch, Alive(pending)) == Live(batch[..n], Alive(pending));
      }
    }
  }

  lemma NothingListed(refs: map<Event, seq<Ref>>, pending: seq<Ref>, e: Event)
    requires Tabled(refs, pending) && e !in Alive(pending)
    ensures Listed(refs, e) == []
  {
    assert ListedAs(refs, pending, e);
    KeepNone(pending, ByEvent(e));
  }

  // What is left once the whole batch is settled.
  lemma OrderlySettles(rs: seq<Ref>, batch: seq<Event>, rest: seq<Event>, pending: seq<Ref>, terminations: map<ID, Event>, seen: set<Event>, k: nat)
    requires Orderly(rs, batch + rest, pending, terminations, seen) && k <= |rs| && Events(rs[..k]) == Live(batch, Alive(pending))
    ensures Orderly(Keep(rs, NotIn(Set(rs[..k]))), rest, Keep(pending, NotIn(Set(rs[..k]))), terminations, seen)
  {
    hide Keep, Matching, WaitsOrLost;
    var gone := Set(rs[..k]);
    var left := Keep(pending, NotIn(gone));
    OrderlyShrinks(rs, batch + rest, pending, terminations, seen, gone);
    RefsArePending(rs, pending);
    KeepMembers(pending, NotIn(gone));
    LiveMembers(batch, Alive(pending));
    forall e | e in batch ensures e !in Alive(left) {
      if e in Alive(pending) {
        assert e in Events(rs[..k]);
        var i :| 0 <= i < k && rs[..k][i].event == e;
        assert rs[i] in rs && rs[..k][i] in gone;
      }
    }
    OrderlyDrops(Keep(rs, NotIn(gone)), batch, rest, left, terminations, seen);
  }

  lemma InStepIsAlive(rs: seq<Ref>, queued: seq<Event>, pending: seq<Ref>, terminations: map<ID, Event>)
    requires InStep(rs, queued, pending, terminations)
    ensures forall e :: e in queued ==> e in Alive(pending)
  {
    hide Matching, Waits;
    RefsArePending(rs, pending);
    forall e | e in queued ensures e in Alive(pending) {
      var i :| 0 <= i < |queued| && queued[i] == e;
      assert rs[i] in rs && rs[i].event == Events(rs)[i];
    }
  }

  lemma OrderlyEnqueues(rs: seq<Ref>, queued: seq<Event>, pending: seq<Ref>, terminations: map<ID, Event>, seen: set<Event>, name: nat, batch: seq<Event>)
    requires Orderly(rs, queued, pending, terminations, seen) && Markers(terminations) && Fresh(pending, name)
    requires Unique(batch) && forall e :: e in batch ==> e.Trace? && e !in seen
    ensures Orderly(rs + NewRefs(name, batch), queued + batch, pending + NewRefs(name, batch), terminations, seen + set e | e in batch)
  {
    hide Keep, Matching, WaitsOrLost;
    var added := NewRefs(name, batch);
    var more := pending + added;
    NewRefsAre(name, batch);
    EnqueueMatches(rs, pending, name, batch);
    EnqueueLives(rs, queued, pending, added, batch);
    UniqueConcat(queued, batch);
    OneEachMore(pending, added, batch);
    AliveConcat(pending, added);
    hide Alive, Unique, OneEach, Live, Events, NewRefs, Fresh;
    forall id | id in terminations ensures WaitsOrLost(terminations[id], rs + added, more) {
      MarkerStays(terminations[id], rs, pending, name, batch);
    }
  }

  lemma AliveConcat(a: seq<Ref>, b: seq<Ref>)
    ensures Alive(a + b) == Alive(a) + Alive(b)
  {
  }

  lemma EnqueueLives(rs: seq<Ref>, queued: seq<Event>, pending: seq<Ref>, added: seq<Ref>, batch: seq<Event>)
    requires Events(rs) == Live(queued, Alive(pending)) && Events(added) == batch && Alive(added) == set e | e in batch
    requires forall e :: e in queued ==> e !in batch
    ensures Events(rs + added) == Live(queued + batch, Alive(pending + added))
  {
    AliveConcat(pending, added);
    LiveConcat(queued, batch, Alive(pending + added));
    LiveAgrees(queued, Alive(pending), Alive(pending + added));
    LiveAll(batch, Alive(pending + added));
    assert Events(rs + added) == Events(rs) + Events(added);
  }

  lemma UniqueConcat(a: seq<Event>, b: seq<Event>)
    requires Unique(a) && Unique(b) && forall e :: e in a ==> e !in b
    ensures Unique(a + b)
  {
    var c := a + b;
    forall i, j | 0 <= i < j < |c| ensures c[i] != c[j] {
      if i < |a| <= j { assert c[i] in a && c[j] in b; }
    }
  }

  lemma NewRefsAre(name: nat, batch: seq<Event>)
    ensures Events(NewRefs(name, batch)) == batch && Alive(NewRefs(name, batch)) == (set e | e in batch)
    ensures forall r :: r in NewRefs(name, batch) ==> r.event in batch && r.segment == name
  {
    forall e | e in batch ensures e in Alive(NewRefs(name, batch)) {
      var i :| 0 <= i < |batch| && batch[i] == e;
      assert NewRefs(name, batch)[i].event == e && NewRefs(name, batch)[i] in NewRefs(name, batch);
    }
  }

  lemma OneEachMore(pending: seq<Ref>, added: seq<Ref>, batch: seq<Event>)
    requires OneEach(pending) && Unique(batch) && Events(added) == batch && forall r :: r in pending ==> r.event !in batch
    ensures OneEach(pending + added)
  {
    assert forall i :: 0 <= i < |added| ==> batch[i] == added[i].event;
    forall r, s | r in pending + added && s in pending + added && r.event == s.event ensures r == s {
      if r in added && s in added {
        var i :| 0 <= i < |added| && added[i] == r;
        var j :| 0 <= j < |added| && added[j] == s;
        assert batch[i] == batch[j];
      }
    }
  }

  lemma MarkerStays(e: Event, rs: seq<Ref>, pending: seq<Ref>, name: nat, batch: seq<Event>)
    requires WaitsOrLost(e, rs, pending) && e.Terminated? && Fresh(pending, name) && forall x :: x in batch ==> x.Trace?
    ensures WaitsOrLost(e, rs + NewRefs(name, batch), pending + NewRefs(name, batch))
  {
    hide Keep;
    NewRefsAre(name, batch);
    if Waits(e, rs, pending) {
      StillWaits(e, rs, pending, NewRefs(name, batch), NewRefs(name, batch), name);
    } else {
      KeepConcat(pending, NewRefs(name, batch), ByEvent(e));
      NoMarkerAdded(name, batch, e);
    }
  }

  // A new marker, spooled or not.
  lemma OrderlyMarker(rs: seq<Ref>, queued: seq<Event>, pending: seq<Ref>, terminations: map<ID, Event>, seen: set<Event>, name: nat, e: Event, spooled: bool)
    requires Orderly(rs, queued, pending, terminations, seen) && Markers(terminations) && Fresh(pending, name) && e.Terminated? && e !in seen
    ensures Orderly(rs, queued, if spooled then pending + [Ref(name, 0, e)] else pending, terminations[e.node := e], seen + {e})
  {
    hide Keep, Matching, WaitsOrLost;
    var r := Ref(name, 0, e);
    var now := if spooled then pending + [r] else pending;
    KeepNone(pending, ByEvent(e));
    if spooled {
      MarkerMatches(rs, pending, name, e);
      LiveAgrees(queued, Alive(pending), Alive(now));
      OneEachMore(pending, [r], [e]);
    }
    var after := terminations[e.node := e];
    forall id | id in after ensures WaitsOrLost(after[id], rs, now) {
      if id == e.node {
        MarkerWaits(rs, pending, r, spooled);
      } else {
        OthersWait(terminations[id], rs, pending, r, spooled);
      }
    }
  }

  lemma MarkerWaits(rs: seq<Ref>, pending: seq<Ref>, r: Ref, spooled: bool)
    requires Keep(pending, ByEvent(r.event)) == [] && (spooled ==> WaitsAs(r.event, r, rs, pending + [r]))
    ensures WaitsOrLost(r.event, rs, if spooled then pending + [r] else pending)
  {
    hide Keep;
  }

  lemma OthersWait(e: Event, rs: seq<Ref>, pending: seq<Ref>, r: Ref, spooled: bool)
    requires WaitsOrLost(e, rs, pending) && e != r.event && Fresh(pending, r.segment)
    ensures WaitsOrLost(e, rs, if spooled then pending + [r] else pending)
  {
    hide Keep;
    if spooled {
      if Waits(e, rs, pending) {
        assert rs + [] == rs;
        StillWaits(e, rs, pending, [], [r], r.segment);
      } else {
        KeepSnoc(pending, r, ByEvent(e));
      }
    }
  }

  // A marker outside the queue enters it, with its reference if it has one.
  lemma OrderlyAdmits(rs: seq<Ref>, queued: seq<Event>, pending: seq<Ref>, terminations: map<ID, Event>, seen: set<Event>, id: ID)
    requires Orderly(rs, queued, pending, terminations, seen) && Markers(terminations) && id in terminations
    ensures var e := terminations[id];
      Orderly(rs + Keep(pending, ByEvent(e)), queued + [e], pending, terminations - {id}, seen)
  {
    hide Keep, Matching, WaitsOrLost;
    var e := terminations[id];
    LiveConcat(queued, [e], Alive(pending));
    LiveOne(e, Alive(pending));
    UniqueConcat(queued, [e]);
    KeepMembers(pending, ByEvent(e));
    AdmittedRefs(e, rs, pending);
    forall other | other in terminations - {id} ensures WaitsOrLost(terminations[other], rs + Keep(pending, ByEvent(e)), pending) {
      AdmittedLeaves(e, rs, pending, terminations[other]);
    }
  }

  lemma AdmittedRefs(e: Event, rs: seq<Ref>, pending: seq<Ref>)
    requires WaitsOrLost(e, rs, pending) && Matching(rs, pending)
    ensures Matching(rs + Keep(pending, ByEvent(e)), pending)
    ensures Events(rs + Keep(pending, ByEvent(e))) == Events(rs) + if e in Alive(pending) then [e] else []
  {
    hide Keep;
    KeepMembers(pending, ByEvent(e));
    if Keep(pending, ByEvent(e)) == [] {
      assert rs + [] == rs;
      forall r | r in pending ensures r.event != e { assert r !in Keep(pending, ByEvent(e)); }
    } else {
      var r :| WaitsAs(e, r, rs, pending);
      AdmitMatches(rs, pending, e, r);
      assert r in [r];
      assert r in pending;
      assert Events(rs + [r]) == Events(rs) + [e];
    }
  }

  lemma AdmittedLeaves(e: Event, rs: seq<Ref>, pending: seq<Ref>, other: Event)
    requires WaitsOrLost(e, rs, pending) && WaitsOrLost(other, rs, pending) && other != e
    ensures WaitsOrLost(other, rs + Keep(pending, ByEvent(e)), pending)
  {
    hide Keep;
    if Keep(pending, ByEvent(e)) == [] {
      assert rs + [] == rs;
    } else if Keep(pending, ByEvent(other)) != [] {
      var r :| WaitsAs(e, r, rs, pending);
      AdmitLeavesWaiting(rs, pending, e, r, other);
    }
  }

  lemma OrderlyStart(pending: seq<Ref>)
    requires Unique(Events(pending))
    ensures Orderly(pending, Events(pending), pending, map[], Alive(pending))
  {
    OneEachStart(pending);
    AllAlive(pending);
    LiveAll(Events(pending), Alive(pending));
    hide Keep, Live, Unique, OneEach, Events, Alive;
  }

  lemma AllAlive(pending: seq<Ref>)
    ensures forall e :: e in Events(pending) ==> e in Alive(pending)
  {
    forall e | e in Events(pending) ensures e in Alive(pending) {
      var i :| 0 <= i < |pending| && Events(pending)[i] == e;
      assert pending[i] in pending;
    }
  }

  lemma OneEachStart(pending: seq<Ref>)
    requires Unique(Events(pending))
    ensures OneEach(pending)
  {
    forall r, s | r in pending && s in pending && r.event == s.event ensures r == s {
      var i :| 0 <= i < |pending| && pending[i] == r;
      var j :| 0 <= j < |pending| && pending[j] == s;
      assert Events(pending)[i] == Events(pending)[j];
    }
  }

  // -------------------------------------------------------------- the books

  /** The queue as a value: what is in flight, queued and waiting; everything that ever entered
      and what successful posts carried, in order; the references of the events in flight and
      queued; everything seen so far, and whether no event came twice. */
  datatype Books = Books(
    inFlight: seq<Event>, events: seq<Event>, terminations: map<ID, Event>,
    entered: seq<Event>, sent: seq<Event>, rs: seq<Ref>, seen: set<Event>, distinct: bool)

  // What was sent, is in flight and is queued is what entered, in order, whatever fails.
  ghost predicate Balanced(b: Books, envelope: nat, pending: seq<Ref>, delivered: set<Event>, faultless: bool) {
    && Markers(b.terminations) && Accounted(b.entered, delivered, b.inFlight, b.events)
    && b.sent + b.inFlight + b.events == b.entered
    && Admitted(envelope, b.events) && Admitted(envelope, b.inFlight)
    && (faultless ==> InStep(b.rs, b.inFlight + b.events, pending, b.terminations))
    && (b.distinct ==> Orderly(b.rs, b.inFlight + b.events, pending, b.terminations, b.seen))
  }

  ghost function Enqueued(b: Books, name: nat, batch: seq<Event>): Books {
    b.(events := b.events + batch, entered := b.entered + batch, rs := b.rs + NewRefs(name, batch),
       seen := b.seen + (set e | e in batch), distinct := b.distinct && Unique(batch) && forall e :: e in batch ==> e !in b.seen)
  }

  lemma EnqueueBalances(b: Books, envelope: nat, pending: seq<Ref>, delivered: set<Event>, faultless: bool, name: nat, batch: seq<Event>)
    requires Balanced(b, envelope, pending, delivered, faultless) && Fresh(pending, name)
    requires Admitted(envelope, batch) && forall e :: e in batch ==> e.Trace?
    ensures Balanced(Enqueued(b, name, batch), envelope, pending + NewRefs(name, batch), delivered, faultless)
  {
    hide Keep, InStep, Orderly, Fresh;
    if faultless { EnqueueInStep(b.rs, b.inFlight + b.events, pending, b.terminations, name, batch); }
    if Enqueued(b, name, batch).distinct {
      OrderlyEnqueues(b.rs, b.inFlight + b.events, pending, b.terminations, b.seen, name, batch);
    }
    assert (b.inFlight + b.events) + batch == b.inFlight + (b.events + batch);
    assert (b.sent + b.inFlight + b.events) + batch == b.sent + b.inFlight + (b.events + batch);
  }

  function Marked(b: Books, e: Event): Books {
    b.(terminations := b.terminations[e.node := e], seen := b.seen + {e}, distinct := b.distinct && e !in b.seen)
  }

  lemma MarkerBalances(b: Books, envelope: nat, pending: seq<Ref>, delivered: set<Event>, faultless: bool, name: nat, e: Event, spooled: bool)
    requires Balanced(b, envelope, pending, delivered, faultless) && Fresh(pending, name) && (faultless ==> spooled)
    requires e.Terminated? && forall r :: r in pending ==> r.event != e
    ensures Balanced(Marked(b, e), envelope, if spooled then pending + [Ref(name, 0, e)] else pending, delivered, faultless)
  {
    hide Keep, InStep, Orderly, Fresh, Admitted;
    if faultless { MarkerInStep(b.rs, b.inFlight + b.events, pending, b.terminations, name, e); }
    if Marked(b, e).distinct { OrderlyMarker(b.rs, b.inFlight + b.events, pending, b.terminations, b.seen, name, e, spooled); }
  }

  ghost function AdmittedBooks(b: Books, pending: seq<Ref>, id: ID): Books
    requires id in b.terminations
  {
    var e := b.terminations[id];
    b.(events := b.events + [e], entered := b.entered + [e], terminations := b.terminations - {id}, rs := b.rs + Keep(pending, ByEvent(e)))
  }

  lemma AdmitBalances(b: Books, envelope: nat, pending: seq<Ref>, delivered: set<Event>, faultless: bool, id: ID)
    requires Balanced(b, envelope, pending, delivered, faultless) && id in b.terminations
    ensures Balanced(AdmittedBooks(b, pending, id), envelope, pending, delivered, faultless)
  {
    hide Keep, InStep, Orderly;
    var e := b.terminations[id];
    if faultless { var r := AdmitInStep(b.rs, b.inFlight + b.events, pending, b.terminations, id); }
    if b.distinct { OrderlyAdmits(b.rs, b.inFlight + b.events, pending, b.terminations, b.seen, id); }
    assert (b.inFlight + b.events) + [e] == b.inFlight + (b.events + [e]);
    assert b.sent + b.inFlight + (b.events + [e]) == (b.sent + b.inFlight + b.events) + [e];
  }

  function Taken(b: Books, k: nat): Books
    requires k <= |b.events|
  {
    b.(inFlight := b.events[..k], events := b.events[k..])
  }

  lemma TakeBalances(b: Books, envelope: nat, pending: seq<Ref>, delivered: set<Event>, faultless: bool, k: nat)
    requires Balanced(b, envelope, pending, delivered, faultless) && b.inFlight == [] && k <= |b.events|
    ensures Balanced(Taken(b, k), envelope, pending, delivered, faultless)
  {
    TakenAre(envelope, b.entered, delivered, b.events, k);
    hide Keep, InStep, Orderly, Accounted, Admitted;
    Parts(b.sent, b.events, k);
  }

  lemma Parts(sent: seq<Event>, events: seq<Event>, k: nat)
    requires k <= |events|
    ensures events[..k] + events[k..] == [] + events && sent + events[..k] + events[k..] == sent + [] + events
  {
    assert events[..k] + events[k..] == events;
  }

  lemma TakenAre(envelope: nat, entered: seq<Event>, delivered: set<Event>, events: seq<Event>, k: nat)
    requires k <= |events| && Admitted(envelope, events) && Accounted(entered, delivered, [], events)
    ensures Admitted(envelope, events[..k]) && Admitted(envelope, events[k..]) && Accounted(entered, delivered, events[..k], events[k..])
  {
    hide Sendable;
    assert events == events[..k] + events[k..];
  }

  function Requeued(b: Books): Books { b.(inFlight := [], events := b.inFlight + b.events) }

  lemma RequeueBalances(b: Books, envelope: nat, pending: seq<Ref>, delivered: set<Event>, faultless: bool)
    requires Balanced(b, envelope, pending, delivered, faultless)
    ensures Balanced(Requeued(b), envelope, pending, delivered, faultless)
  {
    hide Keep, InStep, Orderly;
    assert [] + (b.inFlight + b.events) == b.inFlight + b.events;
    assert b.sent + [] + (b.inFlight + b.events) == b.sent + b.inFlight + b.events;
  }

  lemma DeliveryBalances(b: Books, envelope: nat, pending: seq<Ref>, delivered: set<Event>, more: set<Event>, faultless: bool)
    requires Balanced(b, envelope, pending, delivered, faultless) && delivered <= more
    ensures Balanced(b, envelope, pending, more, faultless)
  {
    hide InStep, Orderly;
  }

  // The references that stand for the batch in flight.
  lemma FrontOwned(b: Books, envelope: nat, refs: map<Event, seq<Ref>>, pending: seq<Ref>, delivered: set<Event>, faultless: bool)
    returns (k: nat)
    requires Balanced(b, envelope, pending, delivered, faultless) && Tabled(refs, pending) && TelemetrySpool.Distinct(pending)
    ensures faultless || b.distinct ==> k <= |b.rs| && Owns(refs, pending, b.rs[..k], b.inFlight)
    ensures faultless ==> k == |b.inFlight|
    ensures b.distinct ==> k <= |b.rs| && Events(b.rs[..k]) == Live(b.inFlight, Alive(pending))
  {
    hide Keep, InStep, Orderly, Tabled, TelemetrySpool.Distinct, Owns, Aligned, Admitted, Accounted, Matching, Waits;
    k := |b.inFlight|;
    if faultless {
      SettleInStep(b.rs, b.inFlight, b.events, pending, b.terminations);
      assert k <= |b.rs| by { FrontFits(b.rs, b.inFlight, b.events, pending, b.terminations); }
      AlignedOwns(refs, pending, b.rs[..k], b.inFlight);
      InStepIsAlive(b.rs, b.inFlight + b.events, pending, b.terminations);
    }
    if b.distinct { k := OrderlyFront(refs, b.rs, b.inFlight, b.events, pending, b.terminations, b.seen); }
  }

  lemma FrontFits(rs: seq<Ref>, batch: seq<Event>, rest: seq<Event>, pending: seq<Ref>, terminations: map<ID, Event>)
    requires InStep(rs, batch + rest, pending, terminations)
    ensures |batch| <= |rs|
  {
  }

  // The whole batch is settled: it was sent, and its references are gone.
  ghost function SentBooks(b: Books, k: nat): Books
    requires k <= |b.rs|
  {
    b.(sent := b.sent + b.inFlight, inFlight := [], rs := Keep(b.rs, NotIn(Set(b.rs[..k]))))
  }

  lemma SettleBalances(b: Books, envelope: nat, pending: seq<Ref>, delivered: set<Event>, was: bool, now: bool, k: nat)
    requires Balanced(b, envelope, pending, delivered, was) && AllIn(b.inFlight, delivered) && TelemetrySpool.Distinct(pending)
    requires k <= |b.rs| && (now ==> was) && (was ==> k == |b.inFlight|)
    requires b.distinct ==> Events(b.rs[..k]) == Live(b.inFlight, Alive(pending))
    ensures Balanced(SentBooks(b, k), envelope, Keep(pending, NotIn(Set(b.rs[..k]))), delivered, now)
  {
    hide Keep, InStep, Orderly, TelemetrySpool.Distinct;
    assert [] + b.events == b.events && (b.sent + b.inFlight) + [] + b.events == b.sent + b.inFlight + b.events;
    if now {
      SettleInStep(b.rs, b.inFlight, b.events, pending, b.terminations);
      InStepDropped(b.rs, b.inFlight + b.events, k, pending, b.terminations);
    }
    if b.distinct { OrderlySettles(b.rs, b.inFlight, b.events, pending, b.terminations, b.seen, k); }
  }

  // A flush that failed half-way settled some segments' references.
  ghost function PartlySettled(b: Books, k: nat, settled: set<nat>): Books
    requires k <= |b.rs|
  {
    b.(rs := Keep(b.rs, NotIn(Covered(b.rs[..k], settled))))
  }

  lemma PartBalances(b: Books, envelope: nat, pending: seq<Ref>, delivered: set<Event>, was: bool, k: nat, settled: set<nat>)
    requires Balanced(b, envelope, pending, delivered, was) && k <= |b.rs|
    ensures Balanced(PartlySettled(b, k, settled), envelope, Keep(pending, NotIn(Covered(b.rs[..k], settled))), delivered, false)
  {
    hide Keep, InStep, Orderly, Admitted;
    if b.distinct {
      OrderlyShrinks(b.rs, b.inFlight + b.events, pending, b.terminations, b.seen, Covered(b.rs[..k], settled));
    }
  }

  lemma Undistinct(b: Books, envelope: nat, pending: seq<Ref>, delivered: set<Event>, was: bool, left: seq<Ref>, rs: seq<Ref>)
    requires Balanced(b, envelope, pending, delivered, was) && !b.distinct
    ensures Balanced(b.(rs := rs), envelope, left, delivered, false)
  {
    hide InStep, Orderly;
  }

  // ------------------------------------------------- the same batch for ever

  // The first k events are the longest acceptable front, and more are waiting behind them.
  ghost predicate CutOff(envelope: nat, queue: seq<Event>, k: nat) {
    k < |queue| && WireBatches.Acceptable(envelope, Sizes(queue), k) && !WireBatches.Acceptable(envelope, Sizes(queue), k + 1)
  }

  /** The queue is jammed by a batch: it is what every flush takes, as its successor does not
      fit, and the spool refuses it because of segment n. */
  ghost predicate Jammed(b: Books, envelope: nat, pending: seq<Ref>, batch: seq<Event>, n: nat) {
    && (b.inFlight == [] || b.inFlight == batch) && batch <= b.inFlight + b.events
    && CutOff(envelope, b.inFlight + b.events, |batch|) && Blocked(pending, batch, n)
  }

  ghost predicate StaysJammed(b: Books, pending: seq<Ref>, c: Books, later: seq<Ref>, envelope: nat) {
    forall batch, n :: Jammed(b, envelope, pending, batch, n) ==> Jammed(c, envelope, later, batch, n)
  }

  lemma SamePrefix(envelope: nat, queue: seq<Event>, more: seq<Event>, k: nat)
    requires k <= |queue|
    ensures WireBatches.Acceptable(envelope, Sizes(queue + more), k) <==> WireBatches.Acceptable(envelope, Sizes(queue), k)
  {
    var a, b := Sizes(queue), Sizes(queue + more);
    assert forall i :: 0 <= i < k ==> a[i] == b[i];
    if WireBatches.Encodable(a, k) && WireBatches.Encodable(b, k) { assert WireBatches.Values(a, k) == WireBatches.Values(b, k); }
  }

  lemma CutOffStays(envelope: nat, queue: seq<Event>, more: seq<Event>, k: nat)
    requires CutOff(envelope, queue, k)
    ensures CutOff(envelope, queue + more, k)
  {
    SamePrefix(envelope, queue, more, k);
    SamePrefix(envelope, queue, more, k + 1);
  }

  lemma CutOffIsLongest(envelope: nat, queue: seq<Event>, k: nat, j: nat)
    requires CutOff(envelope, queue, k) && WireBatches.Acceptable(envelope, Sizes(queue), j)
    ensures j <= k
  {
    if j > k { WireBatches.AcceptableShrinks(envelope, Sizes(queue), k + 1, j); }
  }

  // Events that enter behind, and their new segments, do not help.
  lemma JammedBehind(b: Books, envelope: nat, pending: seq<Ref>, c: Books, added: seq<Ref>)
    requires c.inFlight == b.inFlight && b.events <= c.events
    requires forall r, s :: r in pending && s in added ==> r.segment != s.segment
    ensures StaysJammed(b, pending, c, pending + added, envelope)
  {
    hide Jammed, Keep;
    var more := c.events[|b.events|..];
    assert c.events == b.events + more;
    assert b.inFlight + c.events == (b.inFlight + b.events) + more;
    forall batch, n | Jammed(b, envelope, pending, batch, n) ensures Jammed(c, envelope, pending + added, batch, n) {
      OneJammedBehind(b, envelope, pending, c, added, more, batch, n);
    }
  }

  lemma OneJammedBehind(b: Books, envelope: nat, pending: seq<Ref>, c: Books, added: seq<Ref>, more: seq<Event>, batch: seq<Event>, n: nat)
    requires Jammed(b, envelope, pending, batch, n) && c.inFlight == b.inFlight && b.inFlight + c.events == (b.inFlight + b.events) + more
    requires forall r, s :: r in pending && s in added ==> r.segment != s.segment
    ensures Jammed(c, envelope, pending + added, batch, n)
  {
    hide CutOff, Blocked, Keep;
    CutOffStays(envelope, b.inFlight + b.events, more, |batch|);
    BlockedIsPending(pending, batch, n);
    BlockedAfterAppend(pending, batch, n, added);
  }

  lemma BlockedIsPending(pending: seq<Ref>, batch: seq<Event>, n: nat)
    requires Blocked(pending, batch, n)
    ensures exists r :: r in pending && r.segment == n
  {
    KeepMembers(pending, BySegment(n));
    assert Keep(pending, BySegment(n))[0] in Keep(pending, BySegment(n));
  }

  // The longest acceptable front is the batch again.
  lemma JammedTakes(b: Books, envelope: nat, pending: seq<Ref>, k: nat)
    requires b.inFlight == [] && k <= |b.events| && WireBatches.Acceptable(envelope, Sizes(b.events), k)
    requires forall j: nat :: WireBatches.Acceptable(envelope, Sizes(b.events), j) ==> j <= k
    ensures StaysJammed(b, pending, Taken(b, k), pending, envelope)
    ensures forall batch, n :: Jammed(b, envelope, pending, batch, n) ==> b.events[..k] == batch
  {
    hide Blocked;
    assert [] + b.events == b.events && b.events[..k] + b.events[k..] == b.events;
    forall batch, n | Jammed(b, envelope, pending, batch, n) ensures b.events[..k] == batch && Jammed(Taken(b, k), envelope, pending, batch, n) {
      CutOffIsLongest(envelope, b.events, |batch|, k);
    }
  }

  // No attempt succeeds, and none helps.
  lemma JammedRefuses(b: Books, envelope: nat, refs: map<Event, seq<Ref>>, segments: map<nat, Segment>, pending: seq<Ref>, settled: set<nat>)
    requires Tracked(refs, segments, pending) && b.inFlight != []
    requires AllGapless(segments, Selected(refs, b.inFlight).1, settled)
    ensures StaysJammed(b, pending, b, Keep(pending, NotIn(Fronts(segments, Selected(refs, b.inFlight).1, settled))), envelope)
    ensures forall batch, n :: Jammed(b, envelope, pending, batch, n) ==> !InOrder(segments, Selected(refs, b.inFlight).1)
  {
    hide CutOff, Blocked, Keep, Tracked, AllGapless, InOrder, Selected, Fronts;
    forall batch, n | Jammed(b, envelope, pending, batch, n)
      ensures !InOrder(segments, Selected(refs, b.inFlight).1)
      ensures Jammed(b, envelope, Keep(pending, NotIn(Fronts(segments, Selected(refs, b.inFlight).1, settled))), batch, n)
    {
      BlockedIsRefused(refs, segments, pending, batch, n);
      BlockedAfterAttempt(refs, segments, pending, batch, n, settled);
    }
  }

  lemma JammedAnyhow(b: Books, c: Books, pending: seq<Ref>, envelope: nat)
    requires c.inFlight == b.inFlight && c.events == b.events
    ensures StaysJammed(b, pending, c, pending, envelope)
  {
    hide CutOff, Blocked;
  }

  // Whatever is jammed takes a batch.
  lemma NoneJammed(b: Books, envelope: nat, pending: seq<Ref>)
    requires b.inFlight == [] && forall k: nat :: k >= 1 ==> !WireBatches.Acceptable(envelope, Sizes(b.events), k)
    ensures forall batch, n :: !Jammed(b, envelope, pending, batch, n)
  {
    hide Keep;
    assert [] + b.events == b.events;
    forall batch, n ensures !Jammed(b, envelope, pending, batch, n) {
      if batch == [] { assert multiset(batch) == multiset{}; }
    }
  }

  lemma NoneJammedWhenEmpty(b: Books, envelope: nat, pending: seq<Ref>)
    ensures b.inFlight == [] && b.events == [] ==> forall batch, n :: !Jammed(b, envelope, pending, batch, n)
  {
  }

  lemma NewNames(pending: seq<Ref>, name: nat, batch: seq<Event>)
    requires Fresh(pending, name)
    ensures forall r, s :: r in pending && s in NewRefs(name, batch) ==> r.segment != s.segment
  {
  }

  lemma JammedReturns(b: Books, envelope: nat, pending: seq<Ref>)
    ensures StaysJammed(b, pending, Requeued(b), pending, envelope)
  {
    hide CutOff, Blocked;
    assert [] + (b.inFlight + b.events) == b.inFlight + b.events;
  }

  lemma JammedTwice(a: Books, p: seq<Ref>, b: Books, q: seq<Ref>, c: Books, r: seq<Ref>, envelope: nat)
    requires StaysJammed(a, p, b, q, envelope) && StaysJammed(b, q, c, r, envelope)
    ensures StaysJammed(a, p, c, r, envelope)
  {
    hide Jammed;
  }

  // -------------------------------------------------------------- the queue

  /** While no file operation has failed, a stop or a power cut loses and repeats nothing:
      a restart queues again exactly what was not acknowledged, in spooling order. */
  lemma RestartRepeatsNothing(q: Queue, d: Dir)
    requires q.Valid() && q.spool.faults == 0 && Survives(Image(q.spool.durable, q.spool.current), d)
    ensures Recovered(d, q.spool.nextName) == Events(q.spool.pending)
  {
    RestartIsExact(Image(q.spool.durable, q.spool.current), d, q.spool.segments, q.spool.nextName);
  }

  // A crash point of the process: now, or after any earlier file operation.
  ghost predicate CrashPoint(q: Queue, img: Image)
    reads q, q.spool
  {
    img == Image(q.spool.durable, q.spool.current) || img in q.spool.trace
  }

  /** Restarts chain: what the process leaves behind at any crash point is what a restart
      expects, with whatever promises were safe at that point. */
  lemma RestartsChain(q: Queue, img: Image, owed: map<nat, seq<Event>>)
    requires q.Valid() && CrashPoint(q, img) && Safe(img, owed, q.spool.delivered)
    requires forall n :: n in owed ==> n in q.spool.promised
    ensures Restartable(q.envelope, img, owed, q.spool.delivered, q.spool.nextName)
  {
    hide Safe, Admitted, Fits, Balanced, Tracked, QueueRefs, SegmentsSound;
    if img in q.spool.trace { var i :| 0 <= i < |q.spool.trace| && q.spool.trace[i] == img; }
  }

  /** As long as every batch was small enough for one segment file, every crash point so far
      leaves a spool that opens. */
  lemma SmallBatchesRestart(q: Queue, img: Image, owed: map<nat, seq<Event>>, d: Dir)
    requires q.Valid() && q.spool.small && CrashPoint(q, img) && Safe(img, owed, q.spool.delivered) && Survives(img, d)
    ensures Opens(d)
  {
    hide Safe, Admitted, Fits, Survives, Opens, Balanced, Tracked, QueueRefs, SegmentsSound;
    if img in q.spool.trace { var i :| 0 <= i < |q.spool.trace| && q.spool.trace[i] == img; }
    EverySurvivorOpens(img, owed, q.spool.delivered);
  }

  class Queue {
    const envelope: nat
    const spool: Spool
    var events: seq<Event>
    var inFlight: seq<Event>
    var terminations: map<ID, Event>
    var closed: bool
    var spoolError: bool

    ghost var entered: seq<Event>
    ghost var sent: seq<Event>
    ghost var rs: seq<Ref>
    ghost var seen: set<Event>
    ghost var distinct: bool

    ghost function View(): Books
      reads this
    {
      Books(inFlight, events, terminations, entered, sent, rs, seen, distinct)
    }

    ghost predicate Valid()
      reads this, spool
    {
      && spool.Sound() && spool.envelope == envelope && (spool.faults == 0 ==> spool.CleanNow())
      && Balanced(View(), envelope, spool.pending, spool.delivered, spool.faults == 0)
    }

    constructor (size: nat, s: Spool, recovered: seq<Event>)
      requires s.Sound() && s.CleanNow() && s.envelope == size
      requires Events(s.pending) == recovered && Admitted(size, recovered)
      ensures Valid() && spool == s && envelope == size && events == recovered && inFlight == [] && terminations == map[]
      ensures distinct <==> Unique(recovered)
    {
      hide Spool.Sound, Spool.CleanNow, Keep, Balanced, Admitted, Unique, Alive, Events;
      StartBalances(size, s.pending, s.delivered, s.faults == 0);
      envelope, spool, events, inFlight, terminations, closed, spoolError := size, s, recovered, [], map[], false, false;
      entered, sent, rs, seen, distinct := recovered, [], s.pending, Alive(s.pending), Unique(recovered);
    }

    /** A restart, on whatever a crash left of the disk. It is refused exactly if the spool cannot
        be read or a segment is too large; otherwise every event of every promised batch was accepted by the
        Controller or is queued again. */
    static method Start(size: nat, d: Dir, next: nat, listed: bool, readable: nat -> bool,
                        ghost img: Image, ghost owed: map<nat, seq<Event>>, ghost accepted: set<Event>) returns (q: Queue?)
      requires Restartable(size, img, owed, accepted, next) && Survives(img, d)
      ensures q != null <==> listed && AllFit(d) && forall n :: n in d.segments ==> readable(n)
      ensures q != null ==> fresh(q) && fresh(q.spool) && q.Valid() && q.envelope == size && q.spool.small
      ensures q != null ==> q.events == Recovered(d, next) && q.spool.delivered == accepted
      ensures q != null ==> forall n, e :: n in owed && e in owed[n] ==> e in accepted || e in q.events
    {
      SurvivorsAreSafe(img, d, owed, accepted);
      SurvivorIsLawful(size, img, d, owed, accepted, next);
      RestartLosesNothing(size, d, next, img, owed, accepted);
      hide Keep, Clean, CleanBelow, Recovered, Safe, Survives, SegmentsSound, Tracked, QueueRefs, Named, Lawful, LawfulImages, AllFit, Balanced, Admitted;
      var spool := new Spool(d, next, size, owed, accepted);
      var recovered, ok := spool.Recover(listed, readable);
      if !ok { return null; }
      q := new Queue(size, spool, recovered);
    }

    /** Accept a batch of Peer events: all of it, durably, or none of it. */
    method Enqueue(batch: seq<Event>) returns (ok: bool)
      requires Valid() && (forall e :: e in batch ==> e.Trace? && Sendable(envelope, e))
      modifies this`events, this`spoolError, this`entered, this`rs, this`seen, this`distinct, spool
      ensures Valid() && spool.delivered == old(spool.delivered)
      ensures ok ==> View() == Enqueued(old(View()), old(spool.nextName), batch) && |events| + |inFlight| <= CAPACITY
      ensures ok && batch != [] ==> exists n: nat :: n !in old(spool.promised) && spool.promised == old(spool.promised)[n := batch]
      ensures !ok ==> View() == old(View()) && spool.promised == old(spool.promised)
      ensures ok ==> events == old(events) + batch && entered == old(entered) + batch
      ensures spool.faults == old(spool.faults) ==>
        (ok <==> !closed && |old(events)| + |inFlight| + |batch| <= CAPACITY)
      ensures spoolError <==> old(spoolError) || (!ok && !closed && |old(events)| + |inFlight| + |batch| <= CAPACITY)
      ensures old(spool.trace) <= spool.trace && SafeFrom(spool.trace, |old(spool.trace)|, old(spool.promised), spool.delivered)
      ensures old(spool.small) && Fits(batch) ==> spool.small
      ensures ok && batch != [] ==> (AllFit(spool.current) <==> old(AllFit(spool.current)) && Fits(batch))
      ensures StaysJammed(old(View()), old(spool.pending), View(), spool.pending, envelope)
    {
      hide Spool.Sound, Spool.CleanNow, Keep, Balanced, AllFit, Fits, Fresh, Enqueued, Jammed;
      if closed || |events| + |inFlight| + |batch| > CAPACITY { return false; }
      ghost var name, pending, was, faultless := spool.nextName, spool.pending, View(), spool.faults == 0;
      NamesAreFresh();
      SendableIsEncodable(envelope, batch);
      ok := spool.Append(batch);
      FewerFaults(was, envelope, pending, spool.delivered, faultless, spool.faults == 0);
      hide Admitted, Sendable, SafeFrom;
      if !ok { spoolError := true; return; }
      assert batch == [] ==> pending + NewRefs(name, batch) == pending;
      EnqueueBalances(was, envelope, pending, spool.delivered, spool.faults == 0, name, batch);
      ghost var next := Enqueued(was, name, batch);
      EnqueuedIs(was, name, batch);
      events := events + batch;
      entered, rs, distinct, seen := next.entered, next.rs, next.distinct, next.seen;
      NewNames(pending, name, batch);
      JammedBehind(was, envelope, pending, View(), NewRefs(name, batch));
    }

    lemma NamesAreFresh()
      requires Valid()
      ensures Fresh(spool.pending, spool.nextName) && spool.nextName !in spool.promised
    {
    }

    method Close()
      requires Valid()
      modifies this`closed
      ensures Valid() && closed
    {
      hide Balanced;
      closed := true;
    }

    /** Keep the earliest exit marker of a node, durably if the spool can be written. */
    method QueueTermination(event: Event)
      requires Valid() && event.Terminated? && forall r :: r in spool.pending ==> r.event != event
      modifies this`terminations, this`spoolError, this`seen, this`distinct, spool
      ensures Valid() && spool.delivered == old(spool.delivered)
      ensures View() == if event.node in old(terminations) && old(terminations)[event.node].at <= event.at then old(View()) else Marked(old(View()), event)
      ensures event.node in old(terminations) && old(terminations)[event.node].at <= event.at ==> spoolError == old(spoolError)
      ensures !(event.node in old(terminations) && old(terminations)[event.node].at <= event.at) ==>
        terminations == old(terminations)[event.node := event] && (spoolError <==> old(spoolError) || spool.promised == old(spool.promised))
      ensures old(spool.trace) <= spool.trace && SafeFrom(spool.trace, |old(spool.trace)|, old(spool.promised), spool.delivered)
      ensures old(spool.small) && Fits([event]) ==> spool.small
      ensures spool.faults == old(spool.faults) && View() != old(View()) ==>
        exists n: nat :: n !in old(spool.promised) && spool.promised == old(spool.promised)[n := [event]]
      ensures StaysJammed(old(View()), old(spool.pending), View(), spool.pending, envelope)
    {
      MarkersHaveTimes();
      hide Spool.Sound, Spool.CleanNow, Keep, Balanced, Fits, SafeFrom, Marked, Jammed;
      SafeNothing(spool.trace, spool.promised, spool.delivered);
      if event.node in terminations && terminations[event.node].at <= event.at { return; }
      SpoolMarker(event);
    }

    method SpoolMarker(event: Event)
      requires Valid() && event.Terminated? && forall r :: r in spool.pending ==> r.event != event
      modifies this`terminations, this`spoolError, this`seen, this`distinct, spool
      ensures Valid() && spool.delivered == old(spool.delivered)
      ensures View() == Marked(old(View()), event) && terminations == old(terminations)[event.node := event]
      ensures spoolError <==> old(spoolError) || spool.promised == old(spool.promised)
      ensures old(spool.trace) <= spool.trace && SafeFrom(spool.trace, |old(spool.trace)|, old(spool.promised), spool.delivered)
      ensures old(spool.small) && Fits([event]) ==> spool.small
      ensures spool.faults == old(spool.faults) ==>
        exists n: nat :: n !in old(spool.promised) && spool.promised == old(spool.promised)[n := [event]]
      ensures StaysJammed(old(View()), old(spool.pending), View(), spool.pending, envelope)
    {
      hide Spool.Sound, Spool.CleanNow, Keep, Balanced, AllFit, Fits, Fresh, Jammed;
      ghost var name, pending, was, faultless := spool.nextName, spool.pending, View(), spool.faults == 0;
      NamesAreFresh();
      var ok := spool.Append([event]);
      hide SafeFrom, Admitted;
      FewerFaults(was, envelope, pending, spool.delivered, faultless, spool.faults == 0);
      assert NewRefs(name, [event]) == [Ref(name, 0, event)];
      MarkerBalances(was, envelope, pending, spool.delivered, spool.faults == 0, name, event, ok);
      hide Marked;
      ghost var next := Marked(was, event);
      MarkedIs(was, event);
      if !ok { spoolError := true; }
      terminations := terminations[event.node := event];
      distinct, seen := next.distinct, next.seen;
      NewNames(pending, name, [event]);
      assert pending + [] == pending;
      JammedBehind(was, envelope, pending, View(), if ok then [Ref(name, 0, event)] else []);
    }

    lemma MarkersHaveTimes()
      requires Valid()
      ensures forall id :: id in terminations ==> terminations[id].Terminated?
    {
    }

    // Move waiting exit markers into the queue while there is room.
    method AdmitTerminations()
      requires Valid()
      modifies this`events, this`terminations, this`entered, this`rs
      ensures Valid() && old(events) <= events
      ensures terminations == map[] || |events| + |inFlight| >= CAPACITY
      ensures terminations.Keys <= old(terminations).Keys && |events| + |terminations| == |old(events)| + |old(terminations)|
      ensures forall e :: e in events ==> e in old(events) || e in old(terminations).Values
      ensures forall id :: id in terminations ==> terminations[id] == old(terminations)[id]
      ensures forall id :: id in old(terminations) && id !in terminations ==> old(terminations)[id] in events
    {
      hide Spool.Sound, Spool.CleanNow, Keep, Balanced;
      while terminations != map[]
        invariant Valid() && old(events) <= events
        invariant terminations.Keys <= old(terminations).Keys && |events| + |terminations| == |old(events)| + |old(terminations)|
        invariant forall id :: id in terminations ==> terminations[id] == old(terminations)[id]
        invariant forall id :: id in old(terminations) && id !in terminations ==> old(terminations)[id] in events
        invariant forall e :: e in events ==> e in old(events) || e in old(terminations).Values
        decreases terminations.Keys
      {
        var id :| id in terminations;
        if |events| + |inFlight| >= CAPACITY { return; }
        assert terminations[id] in old(terminations).Values;
        AdmitOne(id);
      }
    }

    method AdmitOne(id: ID)
      requires Valid() && id in terminations
      modifies this`events, this`terminations, this`entered, this`rs
      ensures Valid() && events == old(events) + [old(terminations)[id]] && terminations == old(terminations) - {id}
      ensures |terminations| == |old(terminations)| - 1
    {
      hide Spool.Sound, Spool.CleanNow, Keep, Balanced;
      var event := terminations[id];
      AdmitBalances(View(), envelope, spool.pending, spool.delivered, spool.faults == 0, id);
      assert (terminations - {id}).Keys == terminations.Keys - {id};
      rs := rs + Keep(spool.pending, ByEvent(event));
      events, entered, terminations := events + [event], entered + [event], terminations - {id};
    }

    /** Start the single request in flight: the longest front of the queue that the receiver
        accepts. It is empty only if the queue is, or if its head alone is too large. */
    method BeginFlush() returns (batch: seq<Event>)
      requires Valid()
      modifies this`events, this`inFlight, this`terminations, this`entered, this`rs
      ensures Valid() && spool.pending == old(spool.pending)
      ensures old(inFlight) != [] ==> batch == [] && inFlight == old(inFlight) && events == old(events) && terminations == old(terminations)
      ensures old(inFlight) == [] ==> terminations == map[] || |batch + events| >= CAPACITY
      ensures old(inFlight) == [] ==> forall id :: id in old(terminations) ==>
        old(terminations)[id] in batch + events || (id in terminations && terminations[id] == old(terminations)[id])
      ensures old(inFlight) == [] ==> inFlight == batch && old(events) <= batch + events
      ensures old(inFlight) == [] && batch != [] ==>
        && WireBatches.Acceptable(envelope, Sizes(batch + events), |batch|)
        && forall k: nat :: WireBatches.Acceptable(envelope, Sizes(batch + events), k) ==> k <= |batch|
      ensures old(inFlight) == [] ==> (batch == [] <==> batch + events == [] || !Sendable(envelope, (batch + events)[0]))
      ensures old(inFlight) == [] && AllSendable(envelope, old(events), old(terminations)) ==>
        (batch == [] <==> old(events) == [] && old(terminations) == map[])
      ensures forall again, n :: old(inFlight == [] && Jammed(View(), envelope, spool.pending, again, n)) ==> batch == again
      ensures StaysJammed(old(View()), old(spool.pending), View(), spool.pending, envelope)
    {
      hide Spool.Sound, Spool.CleanNow, Keep, Balanced, Sendable, AllSendable, Jammed;
      if inFlight != [] { return []; }
      AdmitTerminations();
      ghost var admitted := View();
      assert spool.pending + [] == spool.pending;
      JammedBehind(old(View()), envelope, spool.pending, admitted, []);
      NoneJammedWhenEmpty(admitted, envelope, spool.pending);
      if events == [] { return []; }
      var count := WireBatches.MarshalPrefix(envelope, Sizes(events));
      FrontSendable(envelope, events);
      HeadIsSendable(envelope, old(events), old(terminations), events);
      if count.None? {
        NoneJammed(admitted, envelope, spool.pending);
        assert [] + events == events;
        return [];
      }
      JammedTakes(admitted, envelope, spool.pending, count.value);
      batch := Take(count.value);
      JammedTwice(old(View()), spool.pending, admitted, spool.pending, View(), spool.pending, envelope);
    }

    method Take(k: nat) returns (batch: seq<Event>)
      requires Valid() && inFlight == [] && k <= |events|
      modifies this`events, this`inFlight
      ensures Valid() && batch == inFlight == old(events)[..k] && batch + events == old(events) && View() == Taken(old(View()), k)
    {
      hide Spool.Sound, Spool.CleanNow, Keep, Balanced;
      TakeBalances(View(), envelope, spool.pending, spool.delivered, spool.faults == 0, k);
      batch := events[..k];
      assert batch + events[k..] == events;
      events, inFlight := events[k..], batch;
    }

    /** The request ended. A lost reply may hide that the Controller accepted the batch. A
        confirmed batch is refused without a new file error exactly if its acknowledgement is
        out of order, and that cannot be as long as no file error happened at all, or no
        event came twice. */
    method FinishFlush(accepted: bool, replied: bool) returns (ok: bool)
      requires Valid() && inFlight != [] && (replied ==> accepted)
      modifies this`events, this`inFlight, this`spoolError, this`sent, this`rs, spool
      ensures Valid() && inFlight == []
      ensures ok ==> replied && events == old(events) && sent == old(sent) + old(inFlight)
      ensures !ok ==> events == old(inFlight) + old(events) && sent == old(sent)
      ensures spoolError <==> old(spoolError) && !(ok && events == [] && terminations == map[])
      ensures replied && spool.faults == old(spool.faults) ==>
        (ok <==> InOrder(old(spool.segments), Selected(old(spool.refs), old(inFlight)).1))
      ensures replied && spool.faults == old(spool.faults) && (spool.faults == 0 || distinct) ==> ok
      ensures spool.delivered == if accepted then old(spool.delivered) + (set e | e in old(inFlight)) else old(spool.delivered)
      ensures old(spool.trace) <= spool.trace && SafeFrom(spool.trace, |old(spool.trace)|, spool.promised, spool.delivered)
      ensures forall batch, n :: old(Jammed(View(), envelope, spool.pending, batch, n)) ==> !ok
      ensures StaysJammed(old(View()), old(spool.pending), View(), spool.pending, envelope)
    {
      hide Spool.Sound, Clean, Keep, Balanced, InOrder, Selected, SafeFrom, Jammed;
      ghost var delivered := spool.delivered;
      SafeNothing(spool.trace, spool.promised, spool.delivered + set e | e in inFlight);
      SafeNothing(spool.trace, spool.promised, spool.delivered);
      if accepted { spool.Deliver(inFlight); }
      DeliveryBalances(View(), envelope, spool.pending, delivered, spool.delivered, spool.faults == 0);
      ok := replied;
      if replied { ok := Settle(); }
      if ok {
        if events == [] && terminations == map[] { spoolError := false; }
      } else {
        ghost var refused, left := View(), spool.pending;
        JammedReturns(refused, envelope, left);
        Requeue();
        JammedTwice(old(View()), old(spool.pending), refused, left, View(), left, envelope);
      }
    }

    method Settle() returns (ok: bool)
      requires Valid() && inFlight != [] && AllIn(inFlight, spool.delivered)
      modifies this`inFlight, this`sent, this`rs, spool`current, spool`durable, spool`trace, spool`faults, spool`refs, spool`segments, spool`pending
      ensures Valid() && spool.faults >= old(spool.faults)
      ensures if ok then inFlight == [] && sent == old(sent) + old(inFlight) else inFlight == old(inFlight) && sent == old(sent)
      ensures spool.faults == old(spool.faults) && (spool.faults == 0 || distinct) ==> ok
      ensures spool.faults == old(spool.faults) ==> (ok <==> InOrder(old(spool.segments), Selected(old(spool.refs), old(inFlight)).1))
      ensures old(spool.trace) <= spool.trace && SafeFrom(spool.trace, |old(spool.trace)|, spool.promised, spool.delivered)
      ensures forall batch, n :: old(Jammed(View(), envelope, spool.pending, batch, n)) ==> !ok
      ensures !ok ==> events == old(events) && StaysJammed(old(View()), old(spool.pending), View(), spool.pending, envelope)
    {
      hide Jammed, Keep, Clean, Safe, Lawful, LawfulImages, QueueRefs, SegmentsSound, Named, Balanced, InOrder, Selected, SafeFrom, Owns, Tabled, Tailed, TelemetrySpool.Distinct;
      ghost var was, pending, faultless := View(), spool.pending, spool.faults == 0;
      ghost var k := FrontOwned(was, envelope, spool.refs, pending, spool.delivered, faultless);
      ghost var front := if k <= |rs| then rs[..k] else [];
      ghost var settled;
      ghost var refs, segments := spool.refs, spool.segments;
      ok, settled := spool.Acknowledge(inFlight, front);
      JammedRefuses(was, envelope, refs, segments, pending, settled);
      ghost var left := spool.pending;
      hide SafeFrom, AllIn;
      if faultless || distinct {
        if ok {
          SettleBalances(was, envelope, pending, spool.delivered, faultless, spool.faults == 0, k);
          rs := Keep(rs, NotIn(Set(front)));
        } else {
          PartBalances(was, envelope, pending, spool.delivered, faultless, k, settled);
          rs := Keep(rs, NotIn(Covered(front, settled)));
        }
      } else {
        Undistinct(was, envelope, pending, spool.delivered, faultless, spool.pending, rs);
        if ok { SentBalances(was, envelope, spool.pending, spool.delivered); }
      }
      if ok {
        sent, inFlight := sent + inFlight, [];
      } else {
        JammedAnyhow(was, View(), left, envelope);
        JammedTwice(was, pending, was, left, View(), left, envelope);
      }
    }

    method Requeue()
      requires Valid()
      modifies this`events, this`inFlight
      ensures Valid() && inFlight == [] && events == old(inFlight) + old(events) && View() == Requeued(old(View()))
    {
      hide Spool.Sound, Spool.CleanNow, Keep, Balanced;
      RequeueBalances(View(), envelope, spool.pending, spool.delivered, spool.faults == 0);
      events, inFlight := inFlight + events, [];
    }

    /** A run is drained when none of its events is queued, in flight or waiting: then every
        event of the run that ever entered the queue was delivered. */
    method Drained(run: ID) returns (done: bool, failed: bool)
      requires Valid()
      ensures failed <==> done && spoolError
      ensures done <==> forall e :: (e in events || e in inFlight || e in terminations.Values) ==> e.run != run
      ensures done ==> forall e :: e in entered && e.run == run ==> e in spool.delivered
    {
      var remaining := Remaining(inFlight, run) + Remaining(events, run);
      var todo := terminations.Keys;
      while todo != {}
        invariant todo <= terminations.Keys && remaining >= Remaining(inFlight, run) + Remaining(events, run)
        invariant remaining == 0 <==> (Remaining(inFlight, run) + Remaining(events, run) == 0
          && forall id :: id in terminations.Keys - todo ==> terminations[id].run != run)
        decreases todo
      {
        var id :| id in todo;
        if terminations[id].run == run { remaining := remaining + 1; }
        todo := todo - {id};
      }
      RemainingCounts(inFlight, run);
      RemainingCounts(events, run);
      done := remaining == 0;
      failed := done && spoolError;
    }
  }

  // A batch whose references are its own is aligned.
  lemma AlignedOwns(refs: map<Event, seq<Ref>>, pending: seq<Ref>, rs: seq<Ref>, batch: seq<Event>)
    requires Aligned(rs, pending) && Events(rs) == batch
    ensures Owns(refs, pending, rs, batch)
  {
  }

  // Both descriptions drop the same references.
  lemma InStepDropped(rs: seq<Ref>, queued: seq<Event>, k: nat, pending: seq<Ref>, terminations: map<ID, Event>)
    requires InStep(rs, queued, pending, terminations) && TelemetrySpool.Distinct(pending) && k <= |rs|
    ensures Keep(rs, NotIn(Set(rs[..k]))) == rs[k..]
  {
    hide Keep, Waits;
    assert rs == rs[..k] + rs[k..];
    forall r | r in rs[..k] ensures r !in rs[k..] {
      OnceInQueue(rs, pending, k, r);
    }
    DropPrefix(rs[..k], rs[k..]);
  }

  lemma OnceInQueue(rs: seq<Ref>, pending: seq<Ref>, k: nat, r: Ref)
    requires Matching(rs, pending) && TelemetrySpool.Distinct(pending) && k <= |rs| && r in rs[..k]
    ensures r !in rs[k..]
  {
    hide Keep;
    var p := BySegment(r.segment);
    assert Matched(rs, pending, p);
    KeepDistinct(pending, p);
    KeepMembers(rs, p);
    KeepMembers(rs[..k], p);
    KeepMembers(rs[k..], p);
    KeepConcat(rs[..k], rs[k..], p);
    assert rs == rs[..k] + rs[k..];
    var a, b := Keep(rs[..k], p), Keep(rs[k..], p);
    assert r in a && r in Keep(rs, p) && Keep(rs, p) == a + b == Keep(pending, p);
    var i :| 0 <= i < |a| && a[i] == r;
    forall j | 0 <= j < |b| ensures b[j] != r { assert (a + b)[i] == r && (a + b)[|a| + j] == b[j]; }
    assert r !in b;
  }

  lemma MarkedIs(b: Books, e: Event)
    requires e.Terminated?
    ensures var c := Marked(b, e); c == b.(terminations := b.terminations[e.node := e], seen := c.seen, distinct := c.distinct)
  {
  }

  lemma EnqueuedIs(b: Books, name: nat, batch: seq<Event>)
    ensures var c := Enqueued(b, name, batch);
      c.entered == b.entered + batch && c == b.(events := b.events + batch, entered := c.entered, rs := c.rs, seen := c.seen, distinct := c.distinct)
  {
  }

  lemma FewerFaults(b: Books, envelope: nat, pending: seq<Ref>, delivered: set<Event>, was: bool, now: bool)
    requires Balanced(b, envelope, pending, delivered, was) && (now ==> was)
    ensures Balanced(b, envelope, pending, delivered, now)
  {
    hide InStep, Orderly;
  }

  lemma SentBalances(b: Books, envelope: nat, pending: seq<Ref>, delivered: set<Event>)
    requires Balanced(b, envelope, pending, delivered, false) && !b.distinct && AllIn(b.inFlight, delivered)
    ensures Balanced(b.(sent := b.sent + b.inFlight, inFlight := []), envelope, pending, delivered, false)
  {
    hide InStep, Orderly;
    assert [] + b.events == b.events && (b.sent + b.inFlight) + [] + b.events == b.sent + b.inFlight + b.events;
  }

  lemma StartBalances(envelope: nat, pending: seq<Ref>, delivered: set<Event>, faultless: bool)
    requires Admitted(envelope, Events(pending))
    ensures var es := Events(pending);
      Balanced(Books([], es, map[], es, [], pending, Alive(pending), Unique(es)), envelope, pending, delivered, faultless)
  {
    hide Keep, InStep, Orderly, Events, Unique, Alive, Sendable;
    var es := Events(pending);
    RestartInStep(pending);
    if Unique(es) { OrderlyStart(pending); }
    NothingBefore(es);
  }

  lemma NothingBefore(es: seq<Event>)
    ensures [] + es == es && [] + [] + es == es
  {
  }

  lemma SafeNothing(trace: seq<Image>, promised: map<nat, seq<Event>>, delivered: set<Event>)
    ensures SafeFrom(trace, |trace|, promised, delivered)
  {
  }


  lemma SendableIsEncodable(envelope: nat, batch: seq<Event>)
    requires forall e :: e in batch ==> Sendable(envelope, e)
    ensures Encodable(batch) && Admitted(envelope, batch)
  {
    forall e | e in batch ensures Size(e).Some? { assert [Size(e)][0].Some?; }
  }

  ghost predicate AllSendable(envelope: nat, events: seq<Event>, terminations: map<ID, Event>) {
    forall e :: e in events || e in terminations.Values ==> Sendable(envelope, e)
  }

  lemma HeadIsSendable(envelope: nat, was: seq<Event>, terminations: map<ID, Event>, events: seq<Event>)
    requires events != [] && forall e :: e in events ==> e in was || e in terminations.Values
    ensures AllSendable(envelope, was, terminations) ==> Sendable(envelope, events[0])
  {
    assert events[0] in events;
  }

  lemma FrontSendable(envelope: nat, events: seq<Event>)
    requires events != []
    ensures Sendable(envelope, events[0]) <==> exists k: nat :: k >= 1 && WireBatches.Acceptable(envelope, Sizes(events), k)
  {
    assert Sizes(events)[0] == Size(events[0]);
    WireBatches.AdmittedHeadIsSendable(envelope, Sizes(events));
  }

  function Remaining(events: seq<Event>, run: ID): nat {
    if events == [] then 0 else (if events[0].run == run then 1 else 0) + Remaining(events[1..], run)
  }

  lemma {:induction false} RemainingCounts(events: seq<Event>, run: ID)
    ensures Remaining(events, run) == 0 <==> forall e :: e in events ==> e.run != run
  {
    if events != [] {
      RemainingCounts(events[1..], run);
      assert events == [events[0]] + events[1..];
    }
  }

  ghost predicate Accounted(entered: seq<Event>, delivered: set<Event>, inFlight: seq<Event>, events: seq<Event>) {
    forall e :: e in entered ==> e in delivered || e in inFlight || e in events
  }

  // ----------------------------------------------------- what can go wrong

  lemma {:induction false} JoinedSame(count: nat, size: nat)
    requires count > 0
    ensures WireBatches.Joined(seq(count, _ => size)) == count * size + count - 1
  {
    var sizes := seq(count, _ => size);
    if count == 1 {
      assert sizes[..0] == [];
    } else {
      JoinedSame(count - 1, size);
      assert sizes[..count - 1] == seq(count - 1, _ => size);
    }
  }

  // Seven events of some ten million bytes each.
  function LargeBatch(): seq<Event> { seq(7, i requires 0 <= i < 7 => Trace(1, 1, i, Some(10_270_000))) }

  /** Nothing on the way in keeps a segment readable: a batch of distinct events that each fit a
      request is accepted, and once it is on disk the next start is refused. */
  lemma LargeBatchStopsRestart(envelope: nat)
    requires envelope <= 200_000
    ensures (forall e :: e in LargeBatch() ==> e.Trace? && Sendable(envelope, e)) && Unique(LargeBatch()) && |LargeBatch()| <= CAPACITY
    ensures var d := Dir(map[0 := LargeBatch()], map[]);
      Restartable(envelope, Image(d, d), map[0 := LargeBatch()], {}, 1) && Survives(Image(d, d), d) && !Opens(d)
  {
    var batch := LargeBatch();
    forall e | e in batch ensures Sendable(envelope, e) { WireBatches.SingleAcceptable(envelope, Size(e)); }
    SendableIsEncodable(envelope, batch);
    JoinedSame(7, 10_270_000);
    assert seq(|batch|, i requires 0 <= i < |batch| => Bytes(batch[i])) == seq(7, _ => 10_270_000);
    assert !Fits(batch);
    assert Dir(map[0 := batch], map[]).segments[0] == batch;
    hide Sendable, Fits;
  }

  function EventBytes(batch: seq<Event>): nat {
    if batch == [] then 0 else EventBytes(batch[..|batch| - 1]) + Bytes(batch[|batch| - 1])
  }

  // Each event adds its size and a comma.
  lemma FileBytesGrow(batch: seq<Event>, e: Event)
    ensures FileBytes(batch + [e]) == FileBytes(batch) + Bytes(e) + if batch == [] then 0 else 1
  {
    var sizes := seq(|batch|, i requires 0 <= i < |batch| => Bytes(batch[i]));
    var more := seq(|batch + [e]|, i requires 0 <= i < |batch + [e]| => Bytes((batch + [e])[i]));
    assert more == sizes + [Bytes(e)] && more[..|sizes|] == sizes;
  }

  /** Whether the next start can read a batch is known on arrival: a batch fits a segment
      exactly if its events and one byte more for each of them do. */
  lemma FitsOnArrival(batch: seq<Event>)
    ensures batch != [] ==> (Fits(batch) <==> EventBytes(batch) + |batch| < SEGMENT_LIMIT)
  {
    FileBytesAre(batch);
    hide FileBytes, EventBytes;
  }

  lemma {:induction false} FileBytesAre(batch: seq<Event>)
    ensures FileBytes(batch) == EventBytes(batch) + if batch == [] then 2 else |batch| + 1
  {
    hide FileBytes, Bytes;
    if batch == [] {
      NothingWritten();
    } else {
      var before, last := batch[..|batch| - 1], batch[|batch| - 1];
      assert batch == before + [last];
      FileBytesAre(before);
      FileBytesGrow(before, last);
    }
  }

  lemma NothingWritten()
    ensures FileBytes([]) == 2
  {
  }

  /** An exit marker is not checked for size. At the head of the queue it can be sent exactly if
      it fits a request, and otherwise nothing behind it is ever sent. */
  lemma MarkerBlocksExactly(envelope: nat, e: Event, rest: seq<Event>)
    requires e.Terminated?
    ensures (exists k: nat :: k >= 1 && WireBatches.Acceptable(envelope, Sizes([e] + rest), k)) <==> envelope + e.bytes + 2 <= WireBatches.MAX_BYTES
    ensures Sendable(envelope, e) <==> envelope + e.bytes + 2 <= WireBatches.MAX_BYTES
  {
    FrontSendable(envelope, [e] + rest);
    WireBatches.SingleAcceptable(envelope, Size(e));
  }

  // The events A, B, C, A in three segments; only two of them fit a request.
  const A: Event := Trace(1, 1, 1, Some(4_000_000))
  const B: Event := Trace(1, 1, 2, Some(4_000_000))
  const C: Event := Trace(1, 1, 3, Some(4_000_000))
  const START: map<nat, Segment> := map[1 := Segment([A], 0), 2 := Segment([B], 0), 3 := Segment([C, A], 0)]
  const REFS: map<Event, seq<Ref>> := map[A := [Ref(1, 0, A), Ref(3, 1, A)], B := [Ref(2, 0, B)], C := [Ref(3, 0, C)]]

  const WAITING: seq<Ref> := [Ref(1, 0, A), Ref(2, 0, B), Ref(3, 0, C), Ref(3, 1, A)]

  // What is left of them once A's segment is settled.
  const LEFT: seq<Ref> := [Ref(2, 0, B), Ref(3, 0, C), Ref(3, 1, A)]

  /** With equal events one file error can block the queue for good. The first try is in order,
      settles A and fails on B's segment. From then on the other A stands for the first, and
      its segment is out of order. Every flush takes A and B again, as C does not fit: the
      queue is jammed. It stays so whether or not B is settled by a later try. */
  lemma RefusedForever(envelope: nat, entered: seq<Event>, sent: seq<Event>, rs: seq<Ref>, seen: set<Event>)
    requires envelope <= 200_000
    ensures forall e :: e in [A, B, C, A] ==> Sendable(envelope, e)
    ensures Tracked(REFS, START, WAITING) && LEFT == Keep(WAITING, NotIn(SegmentRefs(1, 0, 1, [A])))
    ensures InOrder(START, Selected(REFS, [A, B]).1)
    ensures Jammed(Books([], [A, B, C, A], map[], entered, sent, rs, seen, false), envelope, LEFT, [A, B], 3)
    ensures var refs, segments := DropAll(REFS, 1, 0, 1, [A]), START[1 := Segment([A], 1)];
      && !InOrder(segments, Selected(refs, [A, B]).1)
      && var later, left := DropAll(refs, 2, 0, 1, [B]), segments[2 := Segment([B], 1)];
      !InOrder(left, Selected(later, [A, B]).1)
  {
    hide Tracked, DropAll, Selected, Gapless, Keep, Blocked, CutOff, Sendable, SegmentRefs, InOrder;
    EachSendable(envelope);
    StartIsTracked();
    FirstSettled();
    RefusedTwice();
    TwoFit(envelope);
    StillBlocked();
    assert [] + [A, B, C, A] == [A, B, C, A];
    assert [A, B] <= [A, B, C, A];
  }

  lemma EachSendable(envelope: nat)
    requires envelope <= 200_000
    ensures forall e :: e in [A, B, C, A] ==> Sendable(envelope, e)
  {
    forall e | e in [A, B, C, A] ensures Sendable(envelope, e) { WireBatches.SingleAcceptable(envelope, Size(e)); }
  }

  lemma RefusedTwice()
    ensures InOrder(START, Selected(REFS, [A, B]).1)
    ensures var refs, segments := DropAll(REFS, 1, 0, 1, [A]), START[1 := Segment([A], 1)];
      && !InOrder(segments, Selected(refs, [A, B]).1)
      && var later, left := DropAll(refs, 2, 0, 1, [B]), segments[2 := Segment([B], 1)];
      !InOrder(left, Selected(later, [A, B]).1)
  {
    hide Tracked, DropAll, Selected, Gapless;
    SelectedPair(REFS, Ref(1, 0, A), Ref(2, 0, B));
    FirstInOrder();
    AfterFault();
    SelectedPair(FAULTY, Ref(3, 1, A), Ref(2, 0, B));
    OneAlone(LATER);
    var first, second := Selected(FAULTY, [A, B]).1, Selected(LATER, [A, B]).1;
    assert 3 in first && first[3] == [1] && 3 in second && second[3] == [1];
    assert START[3].ack == 0;
  }

  lemma TwoFit(envelope: nat)
    requires envelope <= 200_000
    ensures CutOff(envelope, [A, B, C, A], 2)
  {
    var sizes := Sizes([A, B, C, A]);
    JoinedSame(2, 4_000_000);
    JoinedSame(3, 4_000_000);
    assert WireBatches.Values(sizes, 2) == seq(2, _ => 4_000_000) && WireBatches.Values(sizes, 3) == seq(3, _ => 4_000_000);
  }

  lemma FirstSettled()
    ensures LEFT == Keep(WAITING, NotIn(SegmentRefs(1, 0, 1, [A])))
  {
    hide Keep;
    var a := Ref(1, 0, A);
    SegmentRefsStep(1, 0, 0, [A]);
    assert SegmentRefs(1, 0, 1, [A]) == {a};
    assert WAITING == [a] + LEFT;
    KeepConcat([a], LEFT, NotIn({a}));
    KeepOne(a, NotIn({a}));
    KeepAll(LEFT, NotIn({a}));
  }

  lemma KeepThree(b: Ref, c: Ref, d: Ref, p: Ref -> bool)
    ensures Keep([b, c, d], p) == (if p(b) then [b] else []) + (if p(c) then [c] else []) + (if p(d) then [d] else [])
  {
    hide Keep;
    assert [b] + [c] == [b, c] && [b, c] + [d] == [b, c, d];
    KeepConcat([b, c], [d], p);
    KeepConcat([b], [c], p);
    KeepOne(b, p);
    KeepOne(c, p);
    KeepOne(d, p);
  }

  lemma StillBlocked()
    ensures Blocked(LEFT, [A, B], 3)
  {
    hide Keep;
    KeepThree(LEFT[0], LEFT[1], LEFT[2], ByEvent(A));
    KeepThree(LEFT[0], LEFT[1], LEFT[2], BySegment(3));
    assert Keep(LEFT, ByEvent(A)) == [LEFT[2]] && Keep(LEFT, BySegment(3)) == [LEFT[1], LEFT[2]];
    assert multiset([A, B])[A] == 1;
    assert ReachedAt(LEFT, [A, B], LEFT[2], 0);
  }

  lemma FirstInOrder()
    ensures Gapless(0, [0]) && !Gapless(0, [1])
  {
    SortedRun(0, 1);
    assert [0] == Run(0, 1);
    assert Sort([1]) == [1] && Run(0, 1)[0] == 0;
  }

  lemma OneAlone(refs: map<Event, seq<Ref>>)
    requires refs == LATER
    ensures Selected(refs, [A, B]).1 == map[3 := [1]]
  {
    SelectedFirst(refs, Ref(3, 1, A));
    assert [A, B][..1] == [A];
  }

  // The references once A's segment is settled, and once B's is too.
  const FAULTY: map<Event, seq<Ref>> := map[A := [Ref(3, 1, A)], B := [Ref(2, 0, B)], C := [Ref(3, 0, C)]]
  const LATER: map<Event, seq<Ref>> := map[A := [Ref(3, 1, A)], C := [Ref(3, 0, C)]]

  lemma AfterFault()
    ensures DropAll(REFS, 1, 0, 1, [A]) == FAULTY && DropAll(FAULTY, 2, 0, 1, [B]) == LATER
  {
    assert DropAll(REFS, 1, 0, 1, [A]) == Drop(DropAll(REFS, 1, 0, 0, [A]), Ref(1, 0, A)) == Drop(REFS, Ref(1, 0, A));
    assert DropAll(FAULTY, 2, 0, 1, [B]) == Drop(DropAll(FAULTY, 2, 0, 0, [B]), Ref(2, 0, B)) == Drop(FAULTY, Ref(2, 0, B));
    assert RemoveFirst([Ref(1, 0, A), Ref(3, 1, A)], Ref(1, 0, A)) == [Ref(3, 1, A)];
    assert RemoveFirst([Ref(2, 0, B)], Ref(2, 0, B)) == [];
  }

  lemma SelectedFirst(refs: map<Event, seq<Ref>>, r: Ref)
    requires Listed(refs, r.event) != [] && Listed(refs, r.event)[0] == r
    ensures Selected(refs, [r.event]) == (map[r.event := 1], map[r.segment := [r.index]])
  {
    assert [r.event][..0] == [] && Selected(refs, []) == (map[], map[]);
    var nothing: map<nat, seq<nat>> := map[];
    assert [] + [r.index] == [r.index];
    assert Pick(nothing, r) == map[r.segment := [r.index]];
  }

  lemma SelectedPair(refs: map<Event, seq<Ref>>, r: Ref, s: Ref)
    requires r.event != s.event && r.segment != s.segment
    requires Listed(refs, r.event) != [] && Listed(refs, r.event)[0] == r && Listed(refs, s.event) != [] && Listed(refs, s.event)[0] == s
    ensures Selected(refs, [r.event, s.event]).1 == map[r.segment := [r.index], s.segment := [s.index]]
  {
    SelectedFirst(refs, r);
    assert [r.event, s.event][..1] == [r.event];
    assert [] + [s.index] == [s.index];
    assert Pick(map[r.segment := [r.index]], s) == map[r.segment := [r.index], s.segment := [s.index]];
  }

  lemma StartIsTracked()
    ensures Tracked(REFS, START, WAITING)
  {
    hide Tracked, EnterAll;
    var a, b, c, d := Ref(1, 0, A), Ref(2, 0, B), Ref(3, 0, C), Ref(3, 1, A);
    var refs0: map<Event, seq<Ref>>, segments0: map<nat, Segment> := map[], map[];
    var refs1, segments1 := refs0[A := [a]], segments0[1 := Segment([A], 0)];
    var refs2, segments2 := refs1[B := [b]], segments1[2 := Segment([B], 0)];
    NothingTracked();
    OneMore(refs0, segments0, [], 1, [A]);
    EnterOne(refs0, a);
    assert [] + [a] == [a] && [] + [b] == [b] && [] + [c] == [c] && [a] + [d] == [a, d];
    assert NewRefs(1, [A]) == [a] && NewRefs(2, [B]) == [b] && NewRefs(3, [C, A]) == [c, d];
    OneMore(refs1, segments1, [a], 2, [B]);
    EnterOne(refs1, b);
    assert [a] + [b] == [a, b] && [a, b] + [c, d] == [a, b, c, d];
    OneMore(refs2, segments2, [a, b], 3, [C, A]);
    EnterTwo(refs2, c, d);
    assert Enter(refs2, c) == refs2[C := [c]];
    assert refs2[C := [c]][A := [a, d]] == REFS;
    assert segments2[3 := Segment([C, A], 0)] == START;
  }

  lemma NothingTracked()
    ensures Tracked(map[], map[], [])
  {
  }

  lemma OneMore(refs: map<Event, seq<Ref>>, segments: map<nat, Segment>, pending: seq<Ref>, name: nat, batch: seq<Event>)
    requires Tracked(refs, segments, pending) && name !in segments
    ensures Tracked(EnterAll(refs, NewRefs(name, batch)), segments[name := Segment(batch, 0)], pending + NewRefs(name, batch))
  {
    TrackedAfter(refs, segments, pending, name, batch, 0);
    assert NewRefs(name, batch)[0..] == NewRefs(name, batch);
    hide Tracked;
  }

  lemma EnterOne(refs: map<Event, seq<Ref>>, r: Ref)
    ensures EnterAll(refs, [r]) == Enter(refs, r)
  {
    assert [r][..0] == [];
  }

  lemma EnterTwo(refs: map<Event, seq<Ref>>, r: Ref, s: Ref)
    ensures EnterAll(refs, [r, s]) == Enter(Enter(refs, r), s)
  {
    assert [r, s][..1] == [r];
    EnterOne(refs, r);
  }
}
