/** The Agent's durable telemetry queue: one file per received batch and one small
    acknowledgement file per partly delivered batch.

    The disk keeps two views of the directory: what the running process sees and what a
    power cut is sure to leave behind. A crash may leave any mixture of the two. Every
    file operation records the resulting disk image, so a statement about all images in
    `trace` is a statement about a crash between any two operations.
 */
module TelemetrySpool {
  import opened Model
  import WireBatches

  // Trace events come from Peers; the Agent makes Terminated itself, each with a fresh nonce.
  datatype Event =
    | Trace(run: ID, node: ID, sequence: nat, size: Option<nat>)
    | Terminated(run: ID, node: ID, at: Time, nonce: nat, bytes: nat)

  // File names are creation times made unique, hence numbers.
  datatype Dir = Dir(segments: map<nat, seq<Event>>, acks: map<nat, nat>)

  datatype Image = Image(durable: Dir, current: Dir)

  // ------------------------------------------------------------------- sizes

  // The length of an event's encoding, if it has one.
  function Size(e: Event): Option<nat> {
    match e
    case Trace(_, _, _, size) => size
    case Terminated(_, _, _, _, bytes) => Some(bytes)
  }

  function Sizes(events: seq<Event>): seq<Option<nat>> {
    seq(|events|, i requires 0 <= i < |events| => Size(events[i]))
  }

  // Admitted by the size check for an envelope with this Agent's name.
  ghost predicate Sendable(envelope: nat, e: Event) { WireBatches.Acceptable(envelope, [Size(e)], 1) }

  ghost predicate Admitted(envelope: nat, events: seq<Event>) {
    forall e :: e in events && e.Trace? ==> Sendable(envelope, e)
  }

  predicate Encodable(batch: seq<Event>) { forall e :: e in batch ==> Size(e).Some? }

  function Bytes(e: Event): nat { if Size(e).Some? then Size(e).value else 0 }

  // A segment file is one list of all events of its batch.
  function FileBytes(batch: seq<Event>): nat {
    WireBatches.Joined(seq(|batch|, i requires 0 <= i < |batch| => Bytes(batch[i]))) + 2
  }

  // openTelemetrySpool refuses larger segments; nothing refuses to write them.
  const SEGMENT_LIMIT: nat := 64 * 1024 * 1024

  predicate Fits(batch: seq<Event>) { FileBytes(batch) <= SEGMENT_LIMIT }

  ghost predicate AllFit(d: Dir) { forall n :: n in d.segments ==> Fits(d.segments[n]) }

  // What is on disk was admitted under a name below `next`, and all of it is readable as
  // long as every batch was `small`.
  ghost predicate Lawful(segments: map<nat, seq<Event>>, next: nat, envelope: nat, small: bool) {
    forall n :: n in segments ==> n < next && Admitted(envelope, segments[n]) && (small ==> Fits(segments[n]))
  }

  ghost predicate LawfulImages(trace: seq<Image>, next: nat, envelope: nat, small: bool) {
    forall i :: 0 <= i < |trace| ==>
      Lawful(trace[i].durable.segments, next, envelope, small) && Lawful(trace[i].current.segments, next, envelope, small)
  }

  lemma LawfulMore(segments: map<nat, seq<Event>>, next: nat, envelope: nat, small: bool, more: nat, less: bool)
    requires Lawful(segments, next, envelope, small) && next <= more && (less ==> small)
    ensures Lawful(segments, more, envelope, less)
  {
  }

  lemma LawfulLater(trace: seq<Image>, next: nat, envelope: nat, small: bool, more: nat, less: bool)
    requires LawfulImages(trace, next, envelope, small) && next <= more && (less ==> small)
    ensures LawfulImages(trace, more, envelope, less)
  {
    hide Lawful;
    forall i | 0 <= i < |trace|
      ensures Lawful(trace[i].durable.segments, more, envelope, less) && Lawful(trace[i].current.segments, more, envelope, less)
    {
      LawfulMore(trace[i].durable.segments, next, envelope, small, more, less);
      LawfulMore(trace[i].current.segments, next, envelope, small, more, less);
    }
  }

  // ------------------------------------------------------------ crash safety

  function Entry<V>(m: map<nat, V>, n: nat): Option<V> { if n in m then Some(m[n]) else None }

  // What may be found after a crash: per name, the durable or the current entry.
  ghost predicate Survives(img: Image, d: Dir) {
    && (forall n :: Entry(d.segments, n) == Entry(img.durable.segments, n) || Entry(d.segments, n) == Entry(img.current.segments, n))
    && (forall n :: Entry(d.acks, n) == Entry(img.durable.acks, n) || Entry(d.acks, n) == Entry(img.current.acks, n))
  }

  ghost predicate AllIn(events: seq<Event>, delivered: set<Event>) {
    forall e :: e in events ==> e in delivered
  }

  ghost predicate AllAt(keys: seq<Event>, indices: seq<nat>, delivered: set<Event>) {
    forall i :: i in indices ==> i < |keys| && keys[i] in delivered
  }

  // One promised batch, as far as one view of the directory shows it.
  ghost predicate Kept(d: Dir, n: nat, batch: seq<Event>, delivered: set<Event>) {
    && (if n in d.segments then d.segments[n] == batch else AllIn(batch, delivered))
    && (n in d.acks ==> d.acks[n] <= |batch| && AllIn(batch[..d.acks[n]], delivered))
  }

  // `promised` are the batches whose append succeeded.
  ghost predicate Safe(img: Image, promised: map<nat, seq<Event>>, delivered: set<Event>) {
    && (forall n :: n in promised ==> Kept(img.durable, n, promised[n], delivered) && Kept(img.current, n, promised[n], delivered))
    && (forall n :: n in img.durable.acks || n in img.current.acks ==> n in promised)
  }

  // The events a segment still has to deliver after a restart.
  function Pending(d: Dir, n: nat): seq<Event> {
    if n !in d.segments then []
    else
      var ack := if n in d.acks then d.acks[n] else 0;
      if ack <= |d.segments[n]| then d.segments[n][ack..] else []
  }

  // openTelemetrySpool refuses to start on a large segment and on an acknowledgement beyond
  // its segment.
  ghost predicate Opens(d: Dir) {
    AllFit(d) && forall n :: n in d.segments && n in d.acks ==> d.acks[n] <= |d.segments[n]|
  }

  /** Main result, per image: whatever mixture a crash leaves behind, every event of a
      promised batch was already accepted by the Controller or is still to be delivered from
      its segment. */
  lemma NothingIsLost(img: Image, d: Dir, promised: map<nat, seq<Event>>, delivered: set<Event>, n: nat, e: Event)
    requires Safe(img, promised, delivered) && Survives(img, d)
    requires n in promised && e in promised[n]
    ensures e in delivered || e in Pending(d, n)
  {
    var batch := promised[n];
    if n !in d.segments {
      assert Entry(d.segments, n) == None;
    } else {
      assert Entry(d.segments, n) == Some(batch);
      if n in d.acks {
        assert Entry(d.acks, n) == Some(d.acks[n]);
        var i :| 0 <= i < |batch| && batch[i] == e;
        if i < d.acks[n] { assert e in batch[..d.acks[n]]; } else { assert batch[d.acks[n]..][i - d.acks[n]] == e; }
      }
    }
  }

  lemma SurvivorsAreSafe(img: Image, d: Dir, promised: map<nat, seq<Event>>, delivered: set<Event>)
    requires Safe(img, promised, delivered) && Survives(img, d)
    ensures Safe(Image(d, d), promised, delivered)
  {
    forall n | n in d.acks ensures n in promised {
      assert Entry(d.acks, n) == Some(d.acks[n]);
    }
    forall n | n in promised ensures Kept(d, n, promised[n], delivered) {
      assert Entry(d.segments, n) == Entry(img.durable.segments, n) || Entry(d.segments, n) == Entry(img.current.segments, n);
      assert Entry(d.acks, n) == Entry(img.durable.acks, n) || Entry(d.acks, n) == Entry(img.current.acks, n);
    }
  }

  /** A surviving directory opens exactly if none of its segments is too large. */
  lemma SurvivorOpensExactly(img: Image, d: Dir, promised: map<nat, seq<Event>>, delivered: set<Event>)
    requires Safe(img, promised, delivered) && Survives(img, d)
    ensures Opens(d) <==> AllFit(d)
  {
    SurvivorsAreSafe(img, d, promised, delivered);
    forall n | n in d.segments && n in d.acks ensures d.acks[n] <= |d.segments[n]| {
      assert Kept(d, n, promised[n], delivered);
    }
  }

  /** Every mixture a crash may leave opens exactly if no segment in either view is too large. */
  lemma EverySurvivorOpens(img: Image, promised: map<nat, seq<Event>>, delivered: set<Event>)
    requires Safe(img, promised, delivered)
    ensures (forall d :: Survives(img, d) ==> Opens(d)) <==> AllFit(img.durable) && AllFit(img.current)
  {
    forall d | Survives(img, d) && AllFit(img.durable) && AllFit(img.current) ensures Opens(d) {
      SurvivorOpensExactly(img, d, promised, delivered);
      forall n | n in d.segments ensures Fits(d.segments[n]) {
        assert Entry(d.segments, n) == Some(d.segments[n]);
      }
    }
    assert Survives(img, img.durable) && Survives(img, img.current);
  }

  lemma FitsMore(d: Dir, name: nat, batch: seq<Event>)
    requires name !in d.segments
    ensures AllFit(d.(segments := d.segments[name := batch])) <==> AllFit(d) && Fits(batch)
  {
    hide Fits;
    var e := d.(segments := d.segments[name := batch]);
    assert forall n :: n in d.segments ==> n in e.segments && e.segments[n] == d.segments[n];
    assert e.segments[name] == batch;
  }

  // --------------------------------------------------- references and order

  // The event at `index` of a segment that is still to be acknowledged.
  datatype Ref = Ref(segment: nat, index: nat, event: Event)

  function Keep(rs: seq<Ref>, p: Ref -> bool): seq<Ref> {
    if rs == [] then []
    else Keep(rs[..|rs| - 1], p) + if p(rs[|rs| - 1]) then [rs[|rs| - 1]] else []
  }

  function ByEvent(e: Event): Ref -> bool { (r: Ref) => r.event == e }
  function BySegment(n: nat): Ref -> bool { (r: Ref) => r.segment == n }
  function NotIn(s: set<Ref>): Ref -> bool { (r: Ref) => r !in s }

  function Events(rs: seq<Ref>): seq<Event> { seq(|rs|, i requires 0 <= i < |rs| => rs[i].event) }

  function NewRefs(n: nat, batch: seq<Event>): seq<Ref> {
    seq(|batch|, i requires 0 <= i < |batch| => Ref(n, i, batch[i]))
  }

  lemma {:induction false} KeepConcat(a: seq<Ref>, b: seq<Ref>, p: Ref -> bool)
    ensures Keep(a + b, p) == Keep(a, p) + Keep(b, p)
  {
    if b == [] {
      assert a + b == a;
    } else {
      var n := |b| - 1;
      assert (a + b)[..|a + b| - 1] == a + b[..n];
      KeepConcat(a, b[..n], p);
    }
  }

  lemma {:induction false} KeepMembers(rs: seq<Ref>, p: Ref -> bool)
    ensures forall r :: r in Keep(rs, p) <==> r in rs && p(r)
  {
    if rs != [] {
      KeepMembers(rs[..|rs| - 1], p);
      assert rs == rs[..|rs| - 1] + [rs[|rs| - 1]];
    }
  }

  lemma {:induction false} KeepCommutes(rs: seq<Ref>, p: Ref -> bool, q: Ref -> bool)
    ensures Keep(Keep(rs, p), q) == Keep(Keep(rs, q), p)
  {
    if rs != [] {
      var n := |rs| - 1;
      var last := [rs[n]];
      KeepCommutes(rs[..n], p, q);
      KeepConcat(Keep(rs[..n], p), if p(rs[n]) then last else [], q);
      KeepConcat(Keep(rs[..n], q), if q(rs[n]) then last else [], p);
      KeepOne(rs[n], p);
      KeepOne(rs[n], q);
    }
  }

  lemma KeepOne(r: Ref, p: Ref -> bool)
    ensures Keep([r], p) == if p(r) then [r] else []
  {
    assert [r][..0] == [];
  }

  lemma {:induction false} KeepAll(rs: seq<Ref>, p: Ref -> bool)
    requires forall r :: r in rs ==> p(r)
    ensures Keep(rs, p) == rs
  {
    if rs != [] { KeepAll(rs[..|rs| - 1], p); }
  }

  lemma {:induction false} KeepNone(rs: seq<Ref>, p: Ref -> bool)
    requires forall r :: r in rs ==> !p(r)
    ensures Keep(rs, p) == []
  {
    if rs != [] { KeepNone(rs[..|rs| - 1], p); }
  }

  // Dropping a known prefix by membership.
  lemma DropPrefix(a: seq<Ref>, b: seq<Ref>)
    requires forall r :: r in a ==> r !in b
    ensures Keep(a + b, NotIn(Set(a))) == b
  {
    KeepConcat(a, b, NotIn(Set(a)));
    KeepNone(a, NotIn(Set(a)));
    KeepAll(b, NotIn(Set(a)));
  }

  function Set(rs: seq<Ref>): set<Ref> { set r | r in rs }

  ghost predicate Distinct(rs: seq<Ref>) { forall i, j :: 0 <= i < j < |rs| ==> rs[i] != rs[j] }

  /** How the refs to acknowledge, `rs`, must sit inside the spool's pending refs: the first
      pending ones of each event, and the first pending ones of each segment. */
  ghost predicate Aligned(rs: seq<Ref>, pending: seq<Ref>) {
    && (forall e :: Keep(rs, ByEvent(e)) <= Keep(pending, ByEvent(e)))
    && (forall n :: Keep(rs, BySegment(n)) <= Keep(pending, BySegment(n)))
  }

  // Refs of one segment are its unacknowledged tail, in order.
  ghost predicate Tail(rs: seq<Ref>, n: nat, ack: nat, keys: seq<Event>) {
    && |rs| <= |keys| - ack
    && forall i :: 0 <= i < |rs| ==> rs[i] == Ref(n, ack + i, keys[ack + i])
  }

  function SegmentRefs(n: nat, from: nat, to: nat, keys: seq<Event>): set<Ref>
    requires from <= to <= |keys|
  {
    set i | from <= i < to :: Ref(n, i, keys[i])
  }

  lemma SegmentRefsStep(n: nat, from: nat, to: nat, keys: seq<Event>)
    requires from <= to < |keys|
    ensures SegmentRefs(n, from, to + 1, keys) == SegmentRefs(n, from, to, keys) + {Ref(n, to, keys[to])}
  {
  }

  lemma {:induction false} NotInBoth(rs: seq<Ref>, a: set<Ref>, b: set<Ref>)
    ensures Keep(Keep(rs, NotIn(a)), NotIn(b)) == Keep(rs, NotIn(a + b))
  {
    if rs != [] {
      var n := |rs| - 1;
      NotInBoth(rs[..n], a, b);
      KeepConcat(Keep(rs[..n], NotIn(a)), if rs[n] !in a then [rs[n]] else [], NotIn(b));
      KeepOne(rs[n], NotIn(b));
    }
  }

  // Removing refs of other events, or of other segments, does not touch a selection.
  lemma KeepUntouched(rs: seq<Ref>, p: Ref -> bool, gone: set<Ref>)
    requires forall r :: r in gone ==> !p(r)
    ensures Keep(Keep(rs, NotIn(gone)), p) == Keep(rs, p)
  {
    KeepCommutes(rs, NotIn(gone), p);
    KeepMembers(rs, p);
    KeepAll(Keep(rs, p), NotIn(gone));
  }

  lemma {:induction false} KeepDistinct(rs: seq<Ref>, p: Ref -> bool)
    requires Distinct(rs)
    ensures Distinct(Keep(rs, p))
  {
    if rs != [] {
      KeepDistinct(rs[..|rs| - 1], p);
      KeepMembers(rs[..|rs| - 1], p);
    }
  }

  // Acknowledging the front of a segment leaves its tail further on.
  lemma TailAdvances(rs: seq<Ref>, n: nat, ack: nat, next: nat, keys: seq<Event>)
    requires Tail(rs, n, ack, keys) && |rs| == |keys| - ack && ack <= next <= |keys|
    ensures Keep(rs, NotIn(SegmentRefs(n, ack, next, keys))) == rs[next - ack..]
    ensures Tail(rs[next - ack..], n, next, keys)
  {
    var k := next - ack;
    assert rs == rs[..k] + rs[k..];
    assert Set(rs[..k]) == SegmentRefs(n, ack, next, keys) by {
      forall r | r in SegmentRefs(n, ack, next, keys) ensures r in rs[..k] {
        assert rs[..k][r.index - ack] == r;
      }
    }
    DropPrefix(rs[..k], rs[k..]);
  }

  // -------------------------------------------------------------- the spool

  datatype Segment = Segment(keys: seq<Event>, ack: nat)

  function Listed(refs: map<Event, seq<Ref>>, e: Event): seq<Ref> { if e in refs then refs[e] else [] }

  // The reference table holds exactly `pending`, grouped by event.
  ghost predicate Tabled(refs: map<Event, seq<Ref>>, pending: seq<Ref>) {
    && (forall e :: ListedAs(refs, pending, e))
    && (forall e :: e in refs ==> refs[e] != [])
  }

  ghost predicate ListedAs(refs: map<Event, seq<Ref>>, pending: seq<Ref>, e: Event) {
    Listed(refs, e) == Keep(pending, ByEvent(e))
  }

  ghost predicate Tailed(segments: map<nat, Segment>, pending: seq<Ref>) {
    && (forall r :: r in pending ==> r.segment in segments)
    && (forall n :: n in segments ==> TailOf(segments[n], pending, n))
  }

  ghost predicate TailOf(s: Segment, pending: seq<Ref>, n: nat) {
    && s.ack <= |s.keys|
    && Tail(Keep(pending, BySegment(n)), n, s.ack, s.keys)
    && |Keep(pending, BySegment(n))| == |s.keys| - s.ack
  }

  ghost predicate SegmentsSound(segments: map<nat, Segment>, promised: map<nat, seq<Event>>, delivered: set<Event>) {
    forall n :: n in segments ==>
      && n in promised && segments[n].keys == promised[n] && segments[n].ack <= |promised[n]|
      && AllIn(promised[n][..segments[n].ack], delivered)
  }

  function Enter(refs: map<Event, seq<Ref>>, r: Ref): map<Event, seq<Ref>> {
    refs[r.event := Listed(refs, r.event) + [r]]
  }

  function EnterAll(refs: map<Event, seq<Ref>>, rs: seq<Ref>): map<Event, seq<Ref>> {
    if rs == [] then refs else Enter(EnterAll(refs, rs[..|rs| - 1]), rs[|rs| - 1])
  }

  // The references are exactly the pending ones.
  ghost predicate Tracked(refs: map<Event, seq<Ref>>, segments: map<nat, Segment>, pending: seq<Ref>) {
    Distinct(pending) && Tabled(refs, pending) && Tailed(segments, pending)
  }

  // What is left to acknowledge: of one segment, and of all segments named below k.
  function TailRefs(segments: map<nat, Segment>, n: nat): seq<Ref> {
    if n in segments && segments[n].ack <= |segments[n].keys| then NewRefs(n, segments[n].keys)[segments[n].ack..] else []
  }

  function QueueRefs(segments: map<nat, Segment>, k: nat): seq<Ref> {
    if k == 0 then [] else QueueRefs(segments, k - 1) + TailRefs(segments, k - 1)
  }

  // Both views of the directory hold exactly what is left to acknowledge.
  ghost predicate Clean(img: Image, segments: map<nat, Segment>) { forall n :: CleanAt(img, segments, n) }

  ghost predicate CleanBelow(img: Image, segments: map<nat, Segment>, k: nat) {
    forall n: nat :: n < k ==> CleanAt(img, segments, n)
  }

  ghost predicate CleanAt(img: Image, segments: map<nat, Segment>, n: nat) {
    && Entry(img.durable.segments, n) == Entry(img.current.segments, n)
    && (n in img.current.segments ==> Entry(img.durable.acks, n) == Entry(img.current.acks, n))
    && Pending(img.current, n) == Events(TailRefs(segments, n))
  }

  /** Without file errors a restart is exact: after a stop or a power cut between two
      operations the queue is again what was left to acknowledge, in the order in which
      it was appended, and nothing that was acknowledged is sent a second time. */
  lemma {:induction false} RestartIsExact(img: Image, d: Dir, segments: map<nat, Segment>, k: nat)
    requires Clean(img, segments) && Survives(img, d)
    ensures Recovered(d, k) == Events(QueueRefs(segments, k))
  {
    hide Clean, Survives, CleanAt, Pending, TailRefs;
    if k > 0 {
      RestartIsExact(img, d, segments, k - 1);
      CleanRest(img, d, segments, k - 1);
      EventsConcat(QueueRefs(segments, k - 1), TailRefs(segments, k - 1));
    }
  }

  lemma CleanRest(img: Image, d: Dir, segments: map<nat, Segment>, n: nat)
    requires Clean(img, segments) && Survives(img, d)
    ensures Pending(d, n) == Events(TailRefs(segments, n))
  {
    hide TailRefs;
    assert CleanAt(img, segments, n);
    hide Clean;
    assert Entry(d.segments, n) == Entry(img.durable.segments, n) || Entry(d.segments, n) == Entry(img.current.segments, n);
    assert Entry(d.acks, n) == Entry(img.durable.acks, n) || Entry(d.acks, n) == Entry(img.current.acks, n);
    hide Survives;
    assert Entry(d.segments, n) == Entry(img.current.segments, n);
    if n in d.segments { assert Entry(d.acks, n) == Entry(img.current.acks, n); }
  }

  lemma EventsConcat(a: seq<Ref>, b: seq<Ref>)
    ensures Events(a + b) == Events(a) + Events(b)
  {
  }

  // Reading the directory one name at a time.
  lemma CleanMissing(d: Dir, segments: map<nat, Segment>, n: nat)
    requires CleanBelow(Image(d, d), segments, n) && n !in d.segments && n !in segments
    ensures CleanBelow(Image(d, d), segments, n + 1)
  {
    assert CleanAt(Image(d, d), segments, n);
  }

  lemma CleanLoaded(d: Dir, segments: map<nat, Segment>, n: nat, ack: nat)
    requires CleanBelow(Image(d, d), segments, n) && n in d.segments
    requires ack == (if n in d.acks then d.acks[n] else 0) && ack <= |d.segments[n]|
    ensures CleanBelow(Image(d, d), segments[n := Segment(d.segments[n], ack)], n + 1)
  {
    var batch := d.segments[n];
    var img, now := Image(d, d), segments[n := Segment(batch, ack)];
    forall m: nat | m < n + 1 ensures CleanAt(img, now, m) {
      if m < n { assert CleanAt(Image(d, d), segments, m); } else { TailEvents([], n, batch, ack); }
    }
  }

  lemma CleanAll(d: Dir, segments: map<nat, Segment>, k: nat)
    requires CleanBelow(Image(d, d), segments, k) && forall n :: n in d.segments || n in segments ==> n < k
    ensures Clean(Image(d, d), segments)
  {
    forall n: nat ensures CleanAt(Image(d, d), segments, n) {
      if n >= k { assert n !in d.segments && n !in segments; }
    }
  }

  lemma CleanAppended(img: Image, segments: map<nat, Segment>, name: nat, batch: seq<Event>)
    requires Clean(img, segments) && name !in img.current.acks && name !in segments
    ensures var d := img.current.(segments := img.current.segments[name := batch]);
      Clean(Image(d, d), segments[name := Segment(batch, 0)])
  {
    var d, now := img.current.(segments := img.current.segments[name := batch]), segments[name := Segment(batch, 0)];
    var after := Image(d, d);
    forall n: nat ensures CleanAt(after, now, n) {
      assert CleanAt(img, segments, n);
      if n == name { TailEvents([], name, batch, 0); }
    }
  }

  lemma CleanAcked(img: Image, segments: map<nat, Segment>, name: nat, ack: nat)
    requires Clean(img, segments) && name in segments && segments[name].ack <= ack <= |segments[name].keys|
    requires name in img.current.segments ==> img.current.segments[name] == segments[name].keys
    ensures var d := img.current.(acks := img.current.acks[name := ack]);
      Clean(Image(d, d), segments[name := segments[name].(ack := ack)])
  {
    var s := segments[name];
    var d, now := img.current.(acks := img.current.acks[name := ack]), segments[name := s.(ack := ack)];
    var after := Image(d, d);
    forall n: nat ensures CleanAt(after, now, n) {
      assert CleanAt(img, segments, n);
      if n == name {
        TailEvents([], name, s.keys, ack);
        if name !in d.segments { NothingLeft(segments, name); }
      }
    }
  }

  lemma NothingLeft(segments: map<nat, Segment>, name: nat)
    requires name in segments && segments[name].ack <= |segments[name].keys| && Events(TailRefs(segments, name)) == []
    ensures segments[name].ack == |segments[name].keys|
  {
    assert |Events(TailRefs(segments, name))| == |segments[name].keys| - segments[name].ack;
  }

  lemma CleanRetired(img: Image, segments: map<nat, Segment>, name: nat, d: Dir, e: Dir)
    requires Clean(img, segments) && name in segments && segments[name].ack == |segments[name].keys|
    requires d == img.current.(segments := img.current.segments - {name}) && (e == d || e == d.(acks := d.acks - {name}))
    ensures Clean(Image(d, e), segments)
  {
    var after := Image(d, e);
    forall n: nat ensures CleanAt(after, segments, n) {
      assert CleanAt(img, segments, n);
    }
  }

  lemma SegmentsAdvance(segments: map<nat, Segment>, promised: map<nat, seq<Event>>, delivered: set<Event>, n: nat, next: nat)
    requires SegmentsSound(segments, promised, delivered) && n in segments && next <= |segments[n].keys|
    requires AllIn(segments[n].keys[..next], delivered)
    ensures SegmentsSound(segments[n := segments[n].(ack := next)], promised, delivered)
  {
  }

  lemma {:induction false} QueueNothing(segments: map<nat, Segment>, k: nat)
    requires forall n :: n in segments ==> k <= n
    ensures QueueRefs(segments, k) == []
  {
    if k > 0 { QueueNothing(segments, k - 1); }
  }

  // A new segment queues behind all others.
  lemma {:induction false} QueueGrows(segments: map<nat, Segment>, name: nat, batch: seq<Event>, ack: nat, k: nat)
    requires (forall n :: n in segments ==> n < name) && name < k && ack <= |batch|
    ensures QueueRefs(segments[name := Segment(batch, ack)], k) == QueueRefs(segments, k) + NewRefs(name, batch)[ack..]
  {
    hide TailRefs, NewRefs;
    var now := segments[name := Segment(batch, ack)];
    SameTails(segments, name, batch, ack, k - 1);
    NoTail(segments, k - 1);
    if name < k - 1 {
      QueueGrows(segments, name, batch, ack, k - 1);
    } else {
      forall n: nat | n < name ensures TailRefs(segments, n) == TailRefs(now, n) { SameTails(segments, name, batch, ack, n); }
      QueueAgrees(segments, now, name);
    }
  }

  lemma QueueNext(segments: map<nat, Segment>, k: nat)
    requires k !in segments
    ensures QueueRefs(segments, k + 1) == QueueRefs(segments, k)
  {
  }

  lemma NoTail(segments: map<nat, Segment>, n: nat)
    requires n !in segments
    ensures TailRefs(segments, n) == []
  {
  }

  lemma SameTails(segments: map<nat, Segment>, name: nat, batch: seq<Event>, ack: nat, n: nat)
    requires ack <= |batch|
    ensures TailRefs(segments[name := Segment(batch, ack)], n) == if n == name then NewRefs(name, batch)[ack..] else TailRefs(segments, n)
  {
  }

  lemma {:induction false} QueueAgrees(a: map<nat, Segment>, b: map<nat, Segment>, k: nat)
    requires forall n: nat :: n < k ==> TailRefs(a, n) == TailRefs(b, n)
    ensures QueueRefs(a, k) == QueueRefs(b, k)
  {
    if k > 0 { QueueAgrees(a, b, k - 1); }
  }

  // Settling the front of one segment takes exactly those references out of the queue.
  lemma {:induction false} QueueAdvances(segments: map<nat, Segment>, n: nat, next: nat, k: nat)
    requires n in segments && segments[n].ack <= next <= |segments[n].keys|
    ensures var s := segments[n];
      Keep(QueueRefs(segments, k), NotIn(SegmentRefs(n, s.ack, next, s.keys))) == QueueRefs(segments[n := s.(ack := next)], k)
  {
    hide Keep;
    var s := segments[n];
    var gone := SegmentRefs(n, s.ack, next, s.keys);
    if k == 0 {
      KeepAll([], NotIn(gone));
    } else {
      QueueAdvances(segments, n, next, k - 1);
      KeepConcat(QueueRefs(segments, k - 1), TailRefs(segments, k - 1), NotIn(gone));
      TailRefsAdvance(segments, n, next, k - 1);
    }
  }

  lemma TailRefsAdvance(segments: map<nat, Segment>, n: nat, next: nat, m: nat)
    requires n in segments && segments[n].ack <= next <= |segments[n].keys|
    ensures var s := segments[n];
      Keep(TailRefs(segments, m), NotIn(SegmentRefs(n, s.ack, next, s.keys))) == TailRefs(segments[n := s.(ack := next)], m)
  {
    hide Keep;
    var s := segments[n];
    var rs := TailRefs(segments, m);
    if m == n {
      assert Tail(rs, n, s.ack, s.keys) && |rs| == |s.keys| - s.ack;
      TailAdvances(rs, n, s.ack, next, s.keys);
      assert rs[next - s.ack..] == NewRefs(n, s.keys)[next..];
    } else {
      KeepAll(rs, NotIn(SegmentRefs(n, s.ack, next, s.keys)));
    }
  }

  // New names are unused.
  ghost predicate Named(durable: Dir, current: Dir, promised: map<nat, seq<Event>>, segments: map<nat, Segment>, next: nat) {
    forall n :: n in durable.segments || n in current.segments || n in promised || n in segments ==> n < next
  }

  ghost predicate Extends(was: map<nat, seq<Event>>, now: map<nat, seq<Event>>) {
    forall n :: n in was ==> n in now && now[n] == was[n]
  }

  // All images added since a point of the trace are safe.
  ghost predicate SafeFrom(trace: seq<Image>, start: nat, promised: map<nat, seq<Event>>, delivered: set<Event>) {
    forall i :: start <= i < |trace| ==> Safe(trace[i], promised, delivered)
  }

  class Spool {
    var current: Dir
    var durable: Dir
    var refs: map<Event, seq<Ref>>
    var segments: map<nat, Segment>
    var nextName: nat

    // Every disk image so far; failed file operations; promised batches; what the
    // Controller accepted; and the unacknowledged refs in append order.
    ghost var trace: seq<Image>
    ghost var faults: nat
    ghost var promised: map<nat, seq<Event>>
    ghost var delivered: set<Event>
    ghost var pending: seq<Ref>

    // The request envelope of this Agent, and whether every batch so far is readable.
    ghost const envelope: nat
    ghost var small: bool

    ghost predicate SafeNow()
      reads this
    {
      && Safe(Image(durable, current), promised, delivered)
      && Lawful(durable.segments, nextName, envelope, small) && Lawful(current.segments, nextName, envelope, small)
      && LawfulImages(trace, nextName, envelope, small)
    }

    ghost predicate Sound()
      reads this
    {
      && SafeNow()
      && SegmentsSound(segments, promised, delivered)
      && Exact()
      && Named(durable, current, promised, segments, nextName)
    }

    ghost predicate Exact()
      reads this
    {
      Tracked(refs, segments, pending) && pending == QueueRefs(segments, nextName)
    }

    ghost predicate CleanNow()
      reads this
    {
      Clean(Image(durable, current), segments)
    }

    constructor (d: Dir, next: nat, ghost size: nat, ghost owed: map<nat, seq<Event>>, ghost accepted: set<Event>)
      requires Safe(Image(d, d), owed, accepted) && Lawful(d.segments, next, size, false)
      requires forall n :: n in owed ==> n < next
      ensures current == durable == d && nextName == next && promised == owed && delivered == accepted
      ensures envelope == size && (small <==> AllFit(d))
      ensures refs == map[] && segments == map[] && pending == [] && trace == [] && faults == 0
      ensures Sound() && Loading(0)
    {
      current, durable, refs, segments, nextName := d, d, map[], map[], next;
      trace, faults, promised, delivered, pending := [], 0, owed, accepted, [];
      envelope, small := size, AllFit(d);
      QueueNothing(map[], next);
    }

    // ------------------------------------------------------ file operations

    // One file operation becomes visible to the process.
    method Show(d: Dir, ghost start: nat)
      requires SafeNow() && Safe(Image(durable, d), promised, delivered) && Lawful(d.segments, nextName, envelope, small)
      requires start <= |trace| && SafeFrom(trace, start, promised, delivered)
      modifies this`current, this`trace
      ensures current == d && trace == old(trace) + [Image(durable, d)]
      ensures SafeNow() && SafeFrom(trace, start, promised, delivered)
    {
      hide Safe, Lawful;
      current := d;
      trace := trace + [Image(durable, current)];
    }

    // Syncing the directory makes what is visible durable.
    method Sync(ghost start: nat)
      requires SafeNow() && start <= |trace| && SafeFrom(trace, start, promised, delivered)
      modifies this`durable, this`trace
      ensures durable == current && trace == old(trace) + [Image(current, current)]
      ensures SafeNow() && SafeFrom(trace, start, promised, delivered)
    {
      SafeSync(durable, current, promised, delivered);
      hide Safe, Lawful;
      durable := current;
      trace := trace + [Image(durable, current)];
    }

    // Temporary file, write, sync, rename over the name, sync of the directory. Anything
    // may fail; before the rename nothing is visible under a name the spool reads.
    method WriteSegment(name: nat, batch: seq<Event>) returns (ok: bool)
      requires SafeNow() && name !in promised && name < nextName && Admitted(envelope, batch) && (small ==> Fits(batch))
      modifies this`current, this`durable, this`trace, this`faults
      ensures SafeNow() && SafeFrom(trace, |old(trace)|, promised, delivered) && old(trace) <= trace
      ensures ok ==> current == durable == old(current).(segments := old(current).segments[name := batch])
      ensures current == old(current) || current == old(current).(segments := old(current).segments[name := batch])
      ensures durable == old(durable) || durable == current
      ensures faults >= old(faults) && (!ok ==> faults > old(faults))
    {
      ghost var start := |trace|;
      var written, synced: bool := *, *;
      if !written { faults := faults + 1; return false; }
      SafeSegment(durable, current, promised, delivered, name, batch);
      hide Safe, SafeFrom, LawfulImages, Admitted, Fits;
      Show(current.(segments := current.segments[name := batch]), start);
      if !synced { faults := faults + 1; return false; }
      Sync(start);
      ok := true;
    }

    method WriteAck(name: nat, ack: nat) returns (ok: bool)
      requires Sound() && name in promised && ack <= |promised[name]| && AllIn(promised[name][..ack], delivered)
      modifies this`current, this`durable, this`trace, this`faults
      ensures Sound() && SafeFrom(trace, |old(trace)|, promised, delivered) && old(trace) <= trace
      ensures ok ==> current == durable == old(current).(acks := old(current).acks[name := ack])
      ensures faults >= old(faults) && (!ok ==> faults > old(faults))
    {
      ghost var start := |trace|;
      var written, synced: bool := *, *;
      if !written { faults := faults + 1; return false; }
      SafeAck(durable, current, promised, delivered, name, ack);
      hide Safe, LawfulImages, Lawful, Tracked, QueueRefs, SegmentsSound;
      Show(current.(acks := current.acks[name := ack]), start);
      if !synced { faults := faults + 1; return false; }
      Sync(start);
      ok := true;
    }

    // Remove a finished segment: unlink, sync, and only then forget its acknowledgement.
    method RemoveSegment(name: nat) returns (ok: bool)
      requires Sound() && name in promised && AllIn(promised[name], delivered)
      modifies this`current, this`durable, this`trace, this`faults
      ensures Sound() && SafeFrom(trace, |old(trace)|, promised, delivered) && old(trace) <= trace
      ensures ok ==> durable == old(current).(segments := old(current).segments - {name})
      ensures ok ==> current == durable || current == durable.(acks := durable.acks - {name})
      ensures faults >= old(faults) && (!ok ==> faults > old(faults))
    {
      ghost var start := |trace|;
      var unlinked, synced, forgotten: bool := *, *, *;
      if !unlinked { faults := faults + 1; return false; }
      SafeUnlink(durable, current, promised, delivered, name);
      LawfulLess(current.segments, nextName, envelope, small, name);
      hide Safe, LawfulImages, Lawful, Tracked, QueueRefs, SegmentsSound;
      Show(current.(segments := current.segments - {name}), start);
      if !synced { faults := faults + 1; return false; }
      Sync(start);
      if forgotten {
        SafeForget(durable, current, promised, delivered, name);
        Show(current.(acks := current.acks - {name}), start);
      }
      ok := true;
    }

    // ------------------------------------------------------------ operations

    // Enter the unacknowledged events of a segment into the reference table.
    method Track(name: nat, batch: seq<Event>, ack: nat)
      requires ack <= |batch| && name < nextName && (forall n :: n in segments ==> n < name) && Exact()
      modifies this`refs, this`segments, this`pending
      ensures segments == old(segments)[name := Segment(batch, ack)]
      ensures pending == old(pending) + NewRefs(name, batch)[ack..] && Exact()
    {
      hide Keep, Tracked, QueueRefs;
      ghost var added, before := NewRefs(name, batch)[ack..], refs;
      for i := ack to |batch|
        invariant refs == EnterAll(before, added[..i - ack])
        invariant segments == old(segments) && pending == old(pending)
      {
        refs := Enter(refs, Ref(name, i, batch[i]));
        assert added[..i + 1 - ack] == added[..i - ack] + [Ref(name, i, batch[i])];
      }
      assert added[..|batch| - ack] == added;
      TrackedAfter(before, segments, pending, name, batch, ack);
      QueueGrows(segments, name, batch, ack, nextName);
      segments := segments[name := Segment(batch, ack)];
      pending := pending + added;
    }

    // Startup has read the segments named below n.
    ghost predicate Loading(n: nat)
      reads this
    {
      && SafeNow() && SegmentsSound(segments, promised, delivered) && Exact()
      && current == durable && Named(durable, current, promised, segments, nextName)
      && (forall m :: m in segments ==> m < n)
      && CleanBelow(Image(durable, current), segments, n)
    }

    // A file nobody was promised is kept like any other from now on. Looking at a file and
    // reading it or its acknowledgement may fail.
    method Load(n: nat, readable: nat -> bool) returns (tail: seq<Event>, ok: bool)
      requires Loading(n) && n < nextName
      modifies this`refs, this`segments, this`pending, this`promised
      ensures ok <==> (n in current.segments ==> readable(n) && Fits(current.segments[n]))
      ensures ok ==> Loading(n + 1) && Extends(old(promised), promised)
      ensures ok ==> Events(pending) == Events(old(pending)) + tail && Recovered(current, n + 1) == Recovered(current, n) + tail
    {
      hide Keep, Tracked, QueueRefs, CleanBelow, CleanAt, Lawful, LawfulImages, FileBytes;
      if n !in current.segments {
        CleanMissing(current, segments, n);
        return [], true;
      }
      var batch := current.segments[n];
      if !readable(n) || !Fits(batch) { return [], false; }
      var ack := if n in current.acks then current.acks[n] else 0;
      Adopted(current, promised, delivered, n);
      if ack > |batch| { return [], false; }
      promised := promised[n := batch];
      CleanLoaded(current, segments, n, ack);
      Track(n, batch, ack);
      TailEvents(old(pending), n, batch, ack);
      tail, ok := batch[ack..], true;
    }

    /** Startup: every segment is read in name order and what it has not acknowledged is
        queued again. It is refused exactly if the directory or a file cannot be read or some
        segment is too large. */
    method Recover(listed: bool, readable: nat -> bool) returns (events: seq<Event>, ok: bool)
      requires Loading(0) && pending == []
      modifies this`refs, this`segments, this`pending, this`promised
      ensures ok <==> listed && AllFit(current) && forall n :: n in current.segments ==> readable(n)
      ensures ok ==> Sound() && CleanNow() && Extends(old(promised), promised)
      ensures ok ==> Events(pending) == events == Recovered(current, nextName)
    {
      hide Keep, Tracked, QueueRefs, LawfulImages, Fits, Safe, SegmentsSound, CleanBelow, Clean;
      events := [];
      assert Events(pending) == events == Recovered(current, 0);
      hide Events, Recovered;
      if !listed { return events, false; }
      for n := 0 to nextName
        invariant Loading(n) && Extends(old(promised), promised)
        invariant Events(pending) == events == Recovered(current, n)
        invariant forall m :: m in current.segments && m < n ==> readable(m) && Fits(current.segments[m])
      {
        var tail, valid := Load(n, readable);
        if !valid { return events, false; }
        events := events + tail;
      }
      CleanAll(current, segments, nextName);
      ok := true;
    }

    /** One durable segment per batch. Success is a promise; failure leaves at most a file
        nobody was promised. */
    method Append(batch: seq<Event>) returns (ok: bool)
      requires Sound() && Admitted(envelope, batch)
      modifies this
      ensures Sound() && delivered == old(delivered)
      ensures old(trace) <= trace && SafeFrom(trace, |old(trace)|, old(promised), delivered)
      ensures faults >= old(faults) && (!ok ==> faults > old(faults) || !Encodable(batch))
      ensures ok && batch != [] ==> promised == old(promised)[old(nextName) := batch]
      ensures !ok || batch == [] ==> promised == old(promised) && pending == old(pending)
      ensures ok && batch != [] ==> pending == old(pending) + NewRefs(old(nextName), batch)
      ensures nextName >= old(nextName)
      ensures ok && old(CleanNow()) ==> CleanNow()
      ensures old(small) && Fits(batch) ==> small
      ensures ok && batch != [] ==> (AllFit(current) <==> old(AllFit(current)) && Fits(batch))
    {
      hide Keep, Tracked, Clean, QueueRefs, SegmentsSound, Safe, Lawful, LawfulImages, Fits, AllFit, Admitted;
      if batch == [] { return true; }
      if !Encodable(batch) { return false; }
      ghost var clean := CleanNow();
      var name := Reserve(batch, clean);
      FitsMore(current, name, batch);
      ok := WriteSegment(name, batch);
      if ok { Enlist(name, batch); }
    }

    // A name nothing on disk and nobody else has.
    method Reserve(batch: seq<Event>, ghost clean: bool) returns (name: nat)
      requires Sound() && (clean ==> CleanNow())
      modifies this`nextName, this`small
      ensures name == old(nextName) && nextName == name + 1 && (small <==> old(small) && Fits(batch))
      ensures Sound() && name !in promised && name !in segments && name !in current.segments
      ensures forall n :: n in segments ==> n < name
      ensures clean ==> var d := current.(segments := current.segments[name := batch]);
        Clean(Image(d, d), segments[name := Segment(batch, 0)])
    {
      hide Keep, Tracked, Clean, QueueRefs, SegmentsSound, Safe, Lawful, LawfulImages, Fits, Admitted;
      NeverAcked(Image(durable, current), promised, delivered, nextName);
      if clean { CleanAppended(Image(durable, current), segments, nextName, batch); }
      QueueNext(segments, nextName);
      LawfulLater(trace, nextName, envelope, small, nextName + 1, small && Fits(batch));
      LawfulMore(durable.segments, nextName, envelope, small, nextName + 1, small && Fits(batch));
      LawfulMore(current.segments, nextName, envelope, small, nextName + 1, small && Fits(batch));
      name, nextName, small := nextName, nextName + 1, small && Fits(batch);
    }

    method Enlist(name: nat, batch: seq<Event>)
      requires SafeNow() && SegmentsSound(segments, promised, delivered) && Exact() && Named(durable, current, promised, segments, nextName)
      requires durable == current && name in current.segments && current.segments[name] == batch
      requires name !in promised && name < nextName && forall n :: n in segments ==> n < name
      modifies this`refs, this`segments, this`pending, this`promised
      ensures Sound()
      ensures promised == old(promised)[name := batch] && segments == old(segments)[name := Segment(batch, 0)]
      ensures pending == old(pending) + NewRefs(name, batch)
    {
      hide Keep, Lawful, LawfulImages;
      NewPromise(durable, current, segments, promised, delivered, name, batch);
      promised := promised[name := batch];
      Track(name, batch, 0);
      assert NewRefs(name, batch)[0..] == NewRefs(name, batch);
    }

    // The Controller accepted a batch.
    ghost method Deliver(batch: seq<Event>)
      requires Sound()
      modifies this`delivered
      ensures Sound() && delivered == old(delivered) + set e | e in batch
    {
      var more := delivered + set e | e in batch;
      SafeGrows(durable, current, promised, delivered, more);
      delivered := more;
    }

    // The oldest free reference of every event of the batch, grouped by segment.
    method Select(batch: seq<Event>) returns (selected: map<nat, seq<nat>>)
      ensures selected == Selected(refs, batch).1
    {
      var used: map<Event, nat> := map[];
      selected := map[];
      for i := 0 to |batch|
        invariant (used, selected) == Selected(refs, batch[..i])
      {
        var event := batch[i];
        var n := Used(used, event);
        assert batch[..i + 1][..i] == batch[..i];
        if n < |Listed(refs, event)| {
          var r := refs[event][n];
          used := used[event := n + 1];
          selected := Pick(selected, r);
        }
      }
      assert batch[..|batch|] == batch;
    }

    // Forget the references to acknowledged events of one segment.
    method Untrack(n: nat, next: nat)
      requires Exact() && n in segments && segments[n].ack <= next <= |segments[n].keys|
      modifies this`refs, this`segments, this`pending
      ensures Exact() && segments == old(segments)[n := old(segments)[n].(ack := next)]
      ensures pending == Keep(old(pending), NotIn(SegmentRefs(n, old(segments)[n].ack, next, segments[n].keys)))
    {
      hide Keep, Tracked, QueueRefs, Drop;
      var s := segments[n];
      for i := s.ack to next
        invariant refs == DropAll(old(refs), n, s.ack, i, s.keys)
        invariant segments == old(segments) && pending == old(pending)
      {
        refs := Drop(refs, Ref(n, i, s.keys[i]));
      }
      TrackedAdvance(old(refs), segments, pending, n, next);
      QueueAdvances(segments, n, next, nextName);
      segments := segments[n := s.(ack := next)];
      pending := Keep(pending, NotIn(SegmentRefs(n, s.ack, next, s.keys)));
    }

    lemma AckIsClean(n: nat, next: nat)
      requires Sound() && CleanNow() && n in segments && segments[n].ack <= next <= |segments[n].keys|
      ensures var d := current.(acks := current.acks[n := next]);
        Clean(Image(d, d), segments[n := segments[n].(ack := next)])
    {
      assert n in current.segments ==> Kept(current, n, promised[n], delivered);
      CleanAcked(Image(durable, current), segments, n, next);
    }

    // First durably, then in memory.
    method Advance(n: nat, next: nat) returns (ok: bool)
      requires Sound() && n in segments && segments[n].ack <= next <= |segments[n].keys|
      requires AllIn(segments[n].keys[..next], delivered)
      modifies this`current, this`durable, this`trace, this`faults, this`refs, this`segments, this`pending
      ensures Sound() && old(trace) <= trace && SafeFrom(trace, |old(trace)|, promised, delivered)
      ensures faults >= old(faults) && (!ok ==> faults > old(faults))
      ensures if ok then segments == old(segments)[n := old(segments)[n].(ack := next)] else segments == old(segments)
      ensures pending == if ok then Keep(old(pending), NotIn(SegmentRefs(n, old(segments)[n].ack, next, segments[n].keys))) else old(pending)
      ensures ok && old(CleanNow()) ==> CleanNow()
    {
      hide Keep, Tracked, Clean, Safe, SafeFrom, QueueRefs, Lawful, LawfulImages;
      ghost var clean := CleanNow();
      assert segments[n].keys == promised[n];
      SegmentsAdvance(segments, promised, delivered, n, next);
      hide SegmentsSound;
      if clean { AckIsClean(n, next); }
      ok := WriteAck(n, next);
      if !ok { return; }
      Untrack(n, next);
    }

    // Remove the file of a segment once everything in it is acknowledged.
    method Retire(n: nat) returns (ok: bool)
      requires Sound() && n in segments
      modifies this`current, this`durable, this`trace, this`faults
      ensures Sound() && old(trace) <= trace && SafeFrom(trace, |old(trace)|, promised, delivered)
      ensures faults >= old(faults) && (!ok ==> faults > old(faults))
      ensures ok && old(CleanNow()) ==> CleanNow()
      ensures ok && segments[n].ack == |segments[n].keys| ==> n !in current.segments
    {
      hide Keep, Tracked, Clean, Safe, QueueRefs, Lawful, LawfulImages;
      if segments[n].ack < |segments[n].keys| { return true; }
      assert promised[n][..segments[n].ack] == promised[n];
      ghost var clean, img := CleanNow(), Image(durable, current);
      ok := RemoveSegment(n);
      if ok && clean { CleanRetired(img, segments, n, durable, current); }
    }

    method AdvanceAndRetire(n: nat, next: nat) returns (ok: bool)
      requires Sound() && n in segments && segments[n].ack < next <= |segments[n].keys|
      requires AllIn(segments[n].keys[..next], delivered)
      modifies this`current, this`durable, this`trace, this`faults, this`refs, this`segments, this`pending
      ensures Sound() && old(trace) <= trace && SafeFrom(trace, |old(trace)|, promised, delivered)
      ensures faults >= old(faults) && (!ok ==> faults > old(faults))
      ensures segments == old(segments) || segments == old(segments)[n := old(segments)[n].(ack := next)]
      ensures pending == if segments == old(segments) then old(pending)
        else Keep(old(pending), NotIn(SegmentRefs(n, old(segments)[n].ack, next, segments[n].keys)))
      ensures ok ==> segments[n].ack == next
      ensures ok && old(CleanNow()) ==> CleanNow()
      ensures ok && next == |old(segments)[n].keys| ==> n !in current.segments
    {
      hide Keep, Tracked, Clean, Safe, SafeFrom, QueueRefs, Lawful, LawfulImages, SegmentsSound, Named, AllIn;
      ghost var was := trace;
      ok := Advance(n, next);
      if ok {
        ghost var halfway := trace;
        ok := Retire(n);
        SafeJoin(was, halfway, trace, promised, delivered);
      }
    }

    /** Acknowledge the selected events of one segment. */
    method AckSegment(n: nat, indices: seq<nat>) returns (ok: bool)
      requires Sound() && n in segments && indices != [] && AllAt(segments[n].keys, indices, delivered)
      modifies this`current, this`durable, this`trace, this`faults, this`refs, this`segments, this`pending
      ensures Sound() && old(trace) <= trace && SafeFrom(trace, |old(trace)|, promised, delivered)
      ensures faults >= old(faults) && (segments == old(segments) || segments == Advanced(old(segments), n, |indices|))
      ensures pending == if segments == old(segments) then old(pending) else Keep(old(pending), NotIn(Front(old(segments)[n], n, |indices|)))
      ensures ok ==> segments == Advanced(old(segments), n, |indices|)
      ensures ok || segments != old(segments) ==> Gapless(old(segments)[n].ack, indices)
      ensures faults == old(faults) ==> (ok <==> Gapless(old(segments)[n].ack, indices))
      ensures faults == old(faults) && old(CleanNow()) ==> CleanNow()
    {
      hide Keep, Tracked, Clean, Safe, QueueRefs, AllIn, Lawful, LawfulImages, Gapless, Named;
      var s := segments[n];
      var next, ordered := NextAck(s.ack, indices);
      if !ordered { return false; }
      AckedPrefix(s.keys, s.ack, next, indices, delivered);
      ok := AdvanceAndRetire(n, next);
    }

    /** Acknowledge a batch the Controller accepted. `rs` are the references of the batch that
        are still pending. Whatever fails, nothing is lost, and what is settled is settled by
        whole segments. Without a new file error the batch is refused exactly if it is out of
        order, and a batch whose references are aligned is never refused. */
    method Acknowledge(batch: seq<Event>, ghost rs: seq<Ref>) returns (ok: bool, ghost settled: set<nat>)
      requires Sound() && AllIn(batch, delivered)
      modifies this`current, this`durable, this`trace, this`faults, this`refs, this`segments, this`pending
      ensures Sound() && old(trace) <= trace && SafeFrom(trace, |old(trace)|, promised, delivered)
      ensures faults >= old(faults)
      ensures faults == old(faults) ==> (ok <==> InOrder(old(segments), Selected(old(refs), batch).1))
      ensures ok ==> InOrder(old(segments), Selected(old(refs), batch).1)
      ensures AllGapless(old(segments), Selected(old(refs), batch).1, settled)
      ensures pending == Keep(old(pending), NotIn(Fronts(old(segments), Selected(old(refs), batch).1, settled)))
      ensures Owns(old(refs), old(pending), rs, batch) ==>
        && Settled(old(pending), rs, settled, pending)
        && (ok ==> pending == Keep(old(pending), NotIn(Set(rs))))
        && (faults == old(faults) ==> ok)
      ensures faults == old(faults) && old(CleanNow()) ==> CleanNow()
    {
      hide Keep, Tracked, Clean, Safe, Lawful, LawfulImages, QueueRefs, SegmentsSound, Named, InOrder, Settled, Covered, Gapless, Front, Fronts;
      var selected := Select(batch);
      ghost var was, start, aligned := segments, pending, Owns(refs, pending, rs, batch);
      SelectedIsReady(refs, was, start, batch, delivered);
      if aligned { OwnedSelection(refs, was, start, rs, batch); }
      hide Owns;
      var todo := selected.Keys;
      settled := {};
      SettledNothing(start, rs);
      FrontsNothing(start, was, selected);
      ok := true;
      while todo != {}
        invariant ok && Sound() && Split(selected, settled, todo) && AllGapless(was, selected, settled)
        invariant old(trace) <= trace && SafeFrom(trace, |old(trace)|, promised, delivered) && faults >= old(faults)
        invariant Frozen(was, segments, todo)
        invariant aligned ==> Settled(start, rs, settled, pending)
        invariant pending == Keep(start, NotIn(Fronts(was, selected, settled)))
        invariant faults == old(faults) && old(CleanNow()) ==> CleanNow()
        decreases todo
      {
        var n :| n in todo;
        assert AckReady(was, selected, delivered, n);
        ghost var before, left, held := trace, pending, segments;
        FrozenAt(was, segments, todo, n);
        ok := AckSegment(n, selected[n]);
        SafeJoin(old(trace), before, trace, promised, delivered);
        if aligned && segments != held { SettledStep(start, was, rs, selected, settled, n, left, pending); }
        FrontsStep(start, was, selected, settled, n);
        if !ok {
          if segments != held {
            GaplessStep(was, selected, settled, n);
            settled := settled + {n};
          }
          RefusedAt(was, selected, n);
          if aligned { ContinuesGapless(was, rs, selected, n); }
          return;
        }
        GaplessStep(was, selected, settled, n);
        FrozenStep(was, held, segments, todo, n, |selected[n]|);
        SplitStep(selected, settled, todo, n);
        todo, settled := todo - {n}, settled + {n};
      }
      AllInOrder(was, selected, settled);
      if aligned { SettledAll(start, rs, selected, settled, pending); }
    }
  }

  // Which batches are acknowledged in order: sorted, the selection of every segment
  // continues its acknowledgement.
  predicate InOrder(segments: map<nat, Segment>, selected: map<nat, seq<nat>>) {
    forall n :: n in selected ==> n in segments && Gapless(segments[n].ack, selected[n])
  }

  ghost predicate AllGapless(segments: map<nat, Segment>, selected: map<nat, seq<nat>>, done: set<nat>) {
    forall n :: n in done ==> n in segments && n in selected && Gapless(segments[n].ack, selected[n])
  }

  lemma GaplessStep(segments: map<nat, Segment>, selected: map<nat, seq<nat>>, done: set<nat>, n: nat)
    requires AllGapless(segments, selected, done) && n in segments && n in selected && Gapless(segments[n].ack, selected[n])
    ensures AllGapless(segments, selected, done + {n})
  {
  }

  lemma RefusedAt(segments: map<nat, Segment>, selected: map<nat, seq<nat>>, n: nat)
    requires n in selected && n in segments
    ensures InOrder(segments, selected) ==> Gapless(segments[n].ack, selected[n])
  {
  }

  lemma AllInOrder(segments: map<nat, Segment>, selected: map<nat, seq<nat>>, done: set<nat>)
    requires AllGapless(segments, selected, done) && done == selected.Keys
    ensures InOrder(segments, selected)
  {
  }

  // `rs` are the references the events of the batch stand for: the first pending ones of
  // their events and of their segments. Events without a reference do not matter.
  ghost predicate Owns(refs: map<Event, seq<Ref>>, pending: seq<Ref>, rs: seq<Ref>, batch: seq<Event>) {
    Aligned(rs, pending) && Selected(refs, batch) == Selected(refs, Events(rs))
  }

  // A selection of owned references continues every segment's acknowledgement.
  lemma OwnedSelection(refs: map<Event, seq<Ref>>, segments: map<nat, Segment>, pending: seq<Ref>, rs: seq<Ref>, batch: seq<Event>)
    requires Tracked(refs, segments, pending) && Owns(refs, pending, rs, batch)
    ensures var selected := Selected(refs, batch).1;
      Covered(rs, selected.Keys) == Set(rs) && forall n :: n in selected ==> Continues(segments, rs, selected, n)
  {
    AlignedSelection(refs, segments, pending, rs, Events(rs));
  }

  lemma ContinuesGapless(segments: map<nat, Segment>, rs: seq<Ref>, selected: map<nat, seq<nat>>, n: nat)
    requires Continues(segments, rs, selected, n)
    ensures Gapless(segments[n].ack, selected[n])
  {
    SortedRun(segments[n].ack, |selected[n]|);
  }

  ghost predicate Split(selected: map<nat, seq<nat>>, done: set<nat>, todo: set<nat>) {
    done + todo == selected.Keys
  }

  lemma SplitStep(selected: map<nat, seq<nat>>, done: set<nat>, todo: set<nat>, n: nat)
    requires Split(selected, done, todo) && n in todo
    ensures Split(selected, done + {n}, todo - {n})
  {
    assert (done + {n}) + (todo - {n}) == done + todo;
  }

  // Segments that were not acknowledged yet are as they were.
  ghost predicate Frozen(was: map<nat, Segment>, now: map<nat, Segment>, todo: set<nat>) {
    was.Keys == now.Keys && forall n :: n in todo && n in was ==> now[n] == was[n]
  }

  lemma FrozenAt(was: map<nat, Segment>, now: map<nat, Segment>, todo: set<nat>, n: nat)
    requires Frozen(was, now, todo) && n in todo && n in was
    ensures n in now && now[n] == was[n]
  {
  }

  lemma FrozenStep(was: map<nat, Segment>, now: map<nat, Segment>, after: map<nat, Segment>, todo: set<nat>, n: nat, count: nat)
    requires Frozen(was, now, todo) && n in was
    requires after == now || after == Advanced(now, n, count)
    ensures Frozen(was, after, todo - {n})
  {
  }

  ghost predicate AckReady(segments: map<nat, Segment>, selected: map<nat, seq<nat>>, delivered: set<Event>, n: nat) {
    n in segments && n in selected && selected[n] != [] && AllAt(segments[n].keys, selected[n], delivered)
  }

  lemma SelectedIsReady(refs: map<Event, seq<Ref>>, segments: map<nat, Segment>, pending: seq<Ref>, batch: seq<Event>, delivered: set<Event>)
    requires Tracked(refs, segments, pending) && AllIn(batch, delivered)
    ensures forall n :: n in Selected(refs, batch).1 ==> AckReady(segments, Selected(refs, batch).1, delivered, n)
  {
    SelectedIsChosen(refs, segments, pending, batch, batch);
    var selected := Selected(refs, batch).1;
    forall n | n in selected ensures AckReady(segments, selected, delivered, n) {
      assert Chosen(segments, batch, n, selected[n]);
    }
  }

  // What is pending once the segments `done` are settled.
  ghost predicate Settled(start: seq<Ref>, rs: seq<Ref>, done: set<nat>, pending: seq<Ref>) {
    pending == Keep(start, NotIn(Covered(rs, done)))
  }

  lemma SettledNothing(start: seq<Ref>, rs: seq<Ref>)
    ensures Settled(start, rs, {}, start)
  {
    KeepAll(start, NotIn(Covered(rs, {})));
  }

  // The selection of an aligned batch continues every segment's acknowledgement.
  ghost predicate Continues(segments: map<nat, Segment>, rs: seq<Ref>, selected: map<nat, seq<nat>>, n: nat) {
    && n in segments && n in selected
    && selected[n] == Run(segments[n].ack, |selected[n]|) && Front(segments[n], n, |selected[n]|) == Covered(rs, {n})
  }

  lemma AlignedSelection(refs: map<Event, seq<Ref>>, segments: map<nat, Segment>, pending: seq<Ref>, rs: seq<Ref>, batch: seq<Event>)
    requires Tracked(refs, segments, pending) && Aligned(rs, pending) && Events(rs) == batch
    ensures var selected := Selected(refs, batch).1;
      Covered(rs, selected.Keys) == Set(rs) && forall n :: n in selected ==> Continues(segments, rs, selected, n)
  {
    SelectedIsAligned(refs, segments, pending, rs, |rs|);
    assert batch[..|rs|] == batch && rs[..|rs|] == rs;
    var selected := Selected(refs, batch).1;
    AllPicksCover(selected, rs);
    SelectedIsChosen(refs, segments, pending, batch, batch);
    forall n | n in selected ensures Continues(segments, rs, selected, n) {
      assert Chosen(segments, batch, n, selected[n]);
      AlignedRun(refs, segments, pending, rs, selected, n);
    }
  }

  lemma SettledStep(start: seq<Ref>, segments: map<nat, Segment>, rs: seq<Ref>, selected: map<nat, seq<nat>>, done: set<nat>, n: nat,
                    left: seq<Ref>, pending: seq<Ref>)
    requires Settled(start, rs, done, left) && Continues(segments, rs, selected, n)
    requires pending == Keep(left, NotIn(Front(segments[n], n, |selected[n]|)))
    ensures Settled(start, rs, done + {n}, pending)
  {
    CoveredStep(start, rs, done, n);
  }

  lemma SettledAll(start: seq<Ref>, rs: seq<Ref>, selected: map<nat, seq<nat>>, done: set<nat>, pending: seq<Ref>)
    requires Settled(start, rs, done, pending) && done == selected.Keys && Covered(rs, selected.Keys) == Set(rs)
    ensures pending == Keep(start, NotIn(Set(rs)))
  {
  }

  function Covered(rs: seq<Ref>, done: set<nat>): set<Ref> { set r | r in rs && r.segment in done }

  lemma CoveredStep(pending: seq<Ref>, rs: seq<Ref>, done: set<nat>, n: nat)
    ensures Keep(Keep(pending, NotIn(Covered(rs, done))), NotIn(Covered(rs, {n}))) == Keep(pending, NotIn(Covered(rs, done + {n})))
  {
    NotInBoth(pending, Covered(rs, done), Covered(rs, {n}));
    assert Covered(rs, done) + Covered(rs, {n}) == Covered(rs, done + {n});
  }

  lemma AllPicksCover(selected: map<nat, seq<nat>>, rs: seq<Ref>)
    requires AllPicks(selected, rs)
    ensures Covered(rs, selected.Keys) == Set(rs)
  {
    forall r | r in rs ensures r.segment in selected {
      assert Picks(selected, rs, r.segment);
      KeepMembers(rs, BySegment(r.segment));
    }
  }

  // The indices picked from a segment continue its acknowledgement without a gap.
  lemma AlignedRun(refs: map<Event, seq<Ref>>, segments: map<nat, Segment>, pending: seq<Ref>, rs: seq<Ref>,
                   selected: map<nat, seq<nat>>, n: nat)
    requires Tracked(refs, segments, pending) && Aligned(rs, pending) && AllPicks(selected, rs)
    requires n in selected && n in segments
    ensures selected[n] == Run(segments[n].ack, |selected[n]|)
    ensures Front(segments[n], n, |selected[n]|) == Covered(rs, {n})
  {
    hide Keep;
    var s, mine, all := segments[n], Keep(rs, BySegment(n)), Keep(pending, BySegment(n));
    assert Picks(selected, rs, n) && TailOf(s, pending, n) && mine <= all;
    hide Tracked, Aligned, AllPicks;
    var k := |mine|;
    assert forall i :: 0 <= i < k ==> mine[i] == all[i] == Ref(n, s.ack + i, s.keys[s.ack + i]);
    assert selected[n] == Run(s.ack, k);
    hide Picks, Run;
    KeepMembers(rs, BySegment(n));
    forall r | r in Front(s, n, k) ensures r in mine {
      assert mine[r.index - s.ack] == r;
    }
  }

  // The first `count` unacknowledged references of a segment.
  function Front(s: Segment, n: nat, count: nat): set<Ref> {
    if s.ack + count <= |s.keys| then SegmentRefs(n, s.ack, s.ack + count, s.keys) else {}
  }

  // What is settled of the segments in `done`.
  function Fronts(segments: map<nat, Segment>, selected: map<nat, seq<nat>>, done: set<nat>): set<Ref> {
    set n, r | n in done && n in segments && n in selected && r in Front(segments[n], n, |selected[n]|) :: r
  }

  lemma FrontsNothing(start: seq<Ref>, segments: map<nat, Segment>, selected: map<nat, seq<nat>>)
    ensures start == Keep(start, NotIn(Fronts(segments, selected, {})))
  {
    KeepAll(start, NotIn(Fronts(segments, selected, {})));
  }

  lemma FrontsStep(start: seq<Ref>, segments: map<nat, Segment>, selected: map<nat, seq<nat>>, done: set<nat>, n: nat)
    requires n in segments && n in selected
    ensures Keep(Keep(start, NotIn(Fronts(segments, selected, done))), NotIn(Front(segments[n], n, |selected[n]|)))
      == Keep(start, NotIn(Fronts(segments, selected, done + {n})))
  {
    hide Keep, Front;
    NotInBoth(start, Fronts(segments, selected, done), Front(segments[n], n, |selected[n]|));
    assert Fronts(segments, selected, done) + Front(segments[n], n, |selected[n]|) == Fronts(segments, selected, done + {n});
  }

  function Advanced(segments: map<nat, Segment>, n: nat, count: nat): map<nat, Segment>
    requires n in segments
  {
    segments[n := segments[n].(ack := segments[n].ack + count)]
  }

  lemma SafeJoin(a: seq<Image>, b: seq<Image>, c: seq<Image>, promised: map<nat, seq<Event>>, delivered: set<Event>)
    requires a <= b <= c && SafeFrom(b, |a|, promised, delivered) && SafeFrom(c, |b|, promised, delivered)
    ensures SafeFrom(c, |a|, promised, delivered)
  {
  }

  // -------------------------------------------------------- acknowledging

  function Run(from: nat, count: nat): seq<nat> { seq(count, i requires 0 <= i < count => from + i) }

  function Used(used: map<Event, nat>, e: Event): nat { if e in used then used[e] else 0 }

  function Indexes(selected: map<nat, seq<nat>>, n: nat): seq<nat> { if n in selected then selected[n] else [] }

  function IndexesOf(rs: seq<Ref>): seq<nat> { seq(|rs|, i requires 0 <= i < |rs| => rs[i].index) }

  ghost predicate Chosen(segments: map<nat, Segment>, batch: seq<Event>, n: nat, indices: seq<nat>) {
    && n in segments && indices != []
    && forall i :: i in indices ==> i < |segments[n].keys| && segments[n].keys[i] in batch
  }

  ghost predicate Uses(used: map<Event, nat>, rs: seq<Ref>, e: Event) { Used(used, e) == |Keep(rs, ByEvent(e))| }

  ghost predicate Picks(selected: map<nat, seq<nat>>, rs: seq<Ref>, n: nat) {
    Indexes(selected, n) == IndexesOf(Keep(rs, BySegment(n))) && (n in selected ==> selected[n] != [])
  }

  ghost predicate AllChosen(segments: map<nat, Segment>, batch: seq<Event>, selected: map<nat, seq<nat>>) {
    forall n :: n in selected ==> Chosen(segments, batch, n, selected[n])
  }

  ghost predicate AllUses(used: map<Event, nat>, rs: seq<Ref>) { forall e :: Uses(used, rs, e) }

  ghost predicate AllPicks(selected: map<nat, seq<nat>>, rs: seq<Ref>) { forall n :: Picks(selected, rs, n) }

  function Pick(selected: map<nat, seq<nat>>, r: Ref): map<nat, seq<nat>> {
    selected[r.segment := Indexes(selected, r.segment) + [r.index]]
  }

  function Selected(refs: map<Event, seq<Ref>>, batch: seq<Event>): (map<Event, nat>, map<nat, seq<nat>>) {
    if batch == [] then (map[], map[])
    else
      var (used, selected) := Selected(refs, batch[..|batch| - 1]);
      var e := batch[|batch| - 1];
      var n := Used(used, e);
      if n < |Listed(refs, e)| then (used[e := n + 1], Pick(selected, Listed(refs, e)[n])) else (used, selected)
  }

  // Whatever was selected belongs to the batch.
  lemma {:induction false} SelectedIsChosen(refs: map<Event, seq<Ref>>, segments: map<nat, Segment>, pending: seq<Ref>, batch: seq<Event>, all: seq<Event>)
    requires Tracked(refs, segments, pending) && batch <= all
    ensures AllChosen(segments, all, Selected(refs, batch).1)
  {
    if batch != [] {
      var was, e := batch[..|batch| - 1], batch[|batch| - 1];
      SelectedIsChosen(refs, segments, pending, was, all);
      var n := Used(Selected(refs, was).0, e);
      if n < |Listed(refs, e)| {
        ReferenceSound(refs, segments, pending, e, n);
        assert all[|batch| - 1] == e;
        ChosenStep(segments, all, Selected(refs, was).1, Listed(refs, e)[n]);
      }
    }
  }

  // An aligned batch selects exactly its own references.
  lemma {:induction false} SelectedIsAligned(refs: map<Event, seq<Ref>>, segments: map<nat, Segment>, pending: seq<Ref>, rs: seq<Ref>, i: nat)
    requires Tracked(refs, segments, pending) && Aligned(rs, pending) && i <= |rs|
    ensures AllUses(Selected(refs, Events(rs)[..i]).0, rs[..i]) && AllPicks(Selected(refs, Events(rs)[..i]).1, rs[..i])
    decreases i
  {
    hide Aligned, Tracked;
    if i == 0 {
      assert Events(rs)[..0] == [] && rs[..0] == [];
    } else {
      hide Keep, AllUses, AllPicks;
      SelectedIsAligned(refs, segments, pending, rs, i - 1);
      var (used, selected) := Selected(refs, Events(rs)[..i - 1]);
      assert Events(rs)[..i][..i - 1] == Events(rs)[..i - 1];
      NextPick(refs, segments, pending, rs, used, i - 1);
      PickStep(used, selected, rs, i - 1);
    }
  }

  lemma ChosenStep(segments: map<nat, Segment>, batch: seq<Event>, selected: map<nat, seq<nat>>, r: Ref)
    requires AllChosen(segments, batch, selected) && r.event in batch
    requires r.segment in segments && r.index < |segments[r.segment].keys| && segments[r.segment].keys[r.index] == r.event
    ensures AllChosen(segments, batch, Pick(selected, r))
  {
    forall n | n in Pick(selected, r) ensures Chosen(segments, batch, n, Pick(selected, r)[n]) {
      if n in selected { assert Chosen(segments, batch, n, selected[n]); }
    }
  }

  function Insert(x: nat, s: seq<nat>): seq<nat> {
    if s == [] || x <= s[0] then [x] + s else [s[0]] + Insert(x, s[1..])
  }

  function Sort(s: seq<nat>): seq<nat> { if s == [] then [] else Insert(s[0], Sort(s[1..])) }

  lemma {:induction false} InsertMembers(x: nat, s: seq<nat>)
    ensures |Insert(x, s)| == |s| + 1 && forall y :: y in Insert(x, s) <==> y == x || y in s
  {
    if !(s == [] || x <= s[0]) {
      InsertMembers(x, s[1..]);
      assert s == [s[0]] + s[1..];
    }
  }

  lemma {:induction false} SortMembers(s: seq<nat>)
    ensures |Sort(s)| == |s| && forall y :: y in Sort(s) <==> y in s
  {
    if s != [] {
      SortMembers(s[1..]);
      InsertMembers(s[0], Sort(s[1..]));
      assert s == [s[0]] + s[1..];
    }
  }

  lemma {:induction false} SortedRun(from: nat, count: nat)
    ensures Sort(Run(from, count)) == Run(from, count)
    decreases count
  {
    if count > 0 {
      var s := Run(from, count);
      assert s[1..] == Run(from + 1, count - 1);
      SortedRun(from + 1, count - 1);
      assert s == [s[0]] + s[1..];
    }
  }

  // Sorted, the indices continue the acknowledgement without a gap.
  predicate Gapless(ack: nat, indices: seq<nat>) { Sort(indices) == Run(ack, |indices|) }

  // The new acknowledgement, if the selected indices continue the old one without a gap.
  method NextAck(ack: nat, indices: seq<nat>) returns (next: nat, ok: bool)
    ensures ok <==> Gapless(ack, indices)
    ensures ok ==> next == ack + |indices| && forall k :: ack <= k < next ==> k in indices
  {
    var sorted := Sort(indices);
    SortMembers(indices);
    next := ack;
    for i := 0 to |sorted|
      invariant next == ack + i && forall k :: ack <= k < next ==> k in indices
      invariant forall j :: 0 <= j < i ==> sorted[j] == ack + j
    {
      if sorted[i] != next { return next, false; }
      assert sorted[i] in sorted;
      next := next + 1;
    }
    ok := true;
  }

  lemma AckedPrefix(keys: seq<Event>, ack: nat, next: nat, indices: seq<nat>, delivered: set<Event>)
    requires ack <= |keys| && AllIn(keys[..ack], delivered) && ack < next
    requires forall k :: ack <= k < next ==> k in indices
    requires AllAt(keys, indices, delivered)
    ensures next <= |keys| && AllIn(keys[..next], delivered)
  {
    assert next - 1 in indices;
    forall e | e in keys[..next] ensures e in delivered {
      var k :| 0 <= k < next && keys[k] == e;
      if k < ack { assert e in keys[..ack]; } else { assert k in indices; }
    }
  }

  lemma ReferenceSound(refs: map<Event, seq<Ref>>, segments: map<nat, Segment>, pending: seq<Ref>, e: Event, k: nat)
    requires Tracked(refs, segments, pending) && k < |Listed(refs, e)|
    ensures var r := Listed(refs, e)[k];
      r.event == e && r.segment in segments && r.index < |segments[r.segment].keys| && segments[r.segment].keys[r.index] == e
  {
    hide Keep;
    var r := Listed(refs, e)[k];
    assert ListedAs(refs, pending, e);
    KeepMembers(pending, ByEvent(e));
    assert r in Keep(pending, ByEvent(e));
    assert r in pending && r.event == e;
    KeepMembers(pending, BySegment(r.segment));
    assert r in Keep(pending, BySegment(r.segment));
    assert TailOf(segments[r.segment], pending, r.segment);
    var j :| 0 <= j < |Keep(pending, BySegment(r.segment))| && Keep(pending, BySegment(r.segment))[j] == r;
  }

  lemma KeepPrefix(rs: seq<Ref>, i: nat, p: Ref -> bool)
    requires i <= |rs|
    ensures Keep(rs[..i], p) <= Keep(rs, p)
  {
    hide Keep;
    KeepConcat(rs[..i], rs[i..], p);
    assert rs == rs[..i] + rs[i..];
  }

  // In an aligned batch the next reference picked is the batch's own.
  lemma NextPick(refs: map<Event, seq<Ref>>, segments: map<nat, Segment>, pending: seq<Ref>, rs: seq<Ref>, used: map<Event, nat>, i: nat)
    requires Tracked(refs, segments, pending) && Aligned(rs, pending) && i < |rs|
    requires AllUses(used, rs[..i])
    ensures Used(used, rs[i].event) < |Listed(refs, rs[i].event)| && Listed(refs, rs[i].event)[Used(used, rs[i].event)] == rs[i]
  {
    hide Keep;
    var e := rs[i].event;
    assert Uses(used, rs[..i], e);
    assert ListedAs(refs, pending, e);
    KeepPrefix(rs, i + 1, ByEvent(e));
    KeepSnoc(rs[..i], rs[i], ByEvent(e));
    assert rs[..i + 1] == rs[..i] + [rs[i]];
    assert Keep(rs, ByEvent(e)) <= Keep(pending, ByEvent(e));
    assert Keep(rs[..i + 1], ByEvent(e))[Used(used, e)] == rs[i];
  }

  lemma PickStep(used: map<Event, nat>, selected: map<nat, seq<nat>>, rs: seq<Ref>, i: nat)
    requires i < |rs| && AllUses(used, rs[..i]) && AllPicks(selected, rs[..i])
    ensures AllUses(used[rs[i].event := Used(used, rs[i].event) + 1], rs[..i + 1])
    ensures AllPicks(Pick(selected, rs[i]), rs[..i + 1])
  {
    var r, upto := rs[i], rs[..i + 1];
    var counted, chosen := used[r.event := Used(used, r.event) + 1], Pick(selected, r);
    assert upto == rs[..i] + [r];
    forall e ensures Uses(counted, upto, e) {
      assert Uses(used, rs[..i], e);
      KeepSnoc(rs[..i], r, ByEvent(e));
    }
    forall n ensures Picks(chosen, upto, n) {
      assert Picks(selected, rs[..i], n);
      KeepSnoc(rs[..i], r, BySegment(n));
    }
  }

  function RemoveFirst(rs: seq<Ref>, r: Ref): seq<Ref> {
    if rs == [] then [] else if rs[0] == r then rs[1..] else [rs[0]] + RemoveFirst(rs[1..], r)
  }

  function Drop(refs: map<Event, seq<Ref>>, r: Ref): map<Event, seq<Ref>> {
    var left := RemoveFirst(Listed(refs, r.event), r);
    if left == [] then refs - {r.event} else refs[r.event := left]
  }

  function DropAll(refs: map<Event, seq<Ref>>, n: nat, from: nat, next: nat, keys: seq<Event>): map<Event, seq<Ref>>
    requires from <= next <= |keys|
    decreases next
  {
    if from == next then refs else Drop(DropAll(refs, n, from, next - 1, keys), Ref(n, next - 1, keys[next - 1]))
  }

  lemma {:induction false} RemoveFirstKeeps(rs: seq<Ref>, r: Ref)
    requires Distinct(rs)
    ensures RemoveFirst(rs, r) == Keep(rs, NotIn({r}))
  {
    if rs != [] {
      assert rs == [rs[0]] + rs[1..];
      KeepConcat([rs[0]], rs[1..], NotIn({r}));
      KeepOne(rs[0], NotIn({r}));
      if rs[0] == r { KeepAll(rs[1..], NotIn({r})); } else { RemoveFirstKeeps(rs[1..], r); }
    }
  }

  lemma TabledDrop(refs: map<Event, seq<Ref>>, rs: seq<Ref>, r: Ref)
    requires Tabled(refs, rs) && Distinct(rs)
    ensures Tabled(Drop(refs, r), Keep(rs, NotIn({r})))
  {
    hide Keep;
    forall e ensures ListedAs(Drop(refs, r), Keep(rs, NotIn({r})), e) {
      assert ListedAs(refs, rs, e);
      if e == r.event {
        KeepDistinct(rs, ByEvent(e));
        RemoveFirstKeeps(Keep(rs, ByEvent(e)), r);
        KeepCommutes(rs, ByEvent(e), NotIn({r}));
      } else {
        KeepUntouched(rs, ByEvent(e), {r});
      }
    }
  }

  lemma {:induction false} TabledDropAll(refs: map<Event, seq<Ref>>, rs: seq<Ref>, n: nat, from: nat, next: nat, keys: seq<Event>)
    requires Tabled(refs, rs) && Distinct(rs) && from <= next <= |keys|
    ensures Tabled(DropAll(refs, n, from, next, keys), Keep(rs, NotIn(SegmentRefs(n, from, next, keys))))
    decreases next
  {
    hide Keep;
    if from == next {
      KeepAll(rs, NotIn(SegmentRefs(n, from, next, keys)));
    } else {
      var gone, r := SegmentRefs(n, from, next - 1, keys), Ref(n, next - 1, keys[next - 1]);
      TabledDropAll(refs, rs, n, from, next - 1, keys);
      KeepDistinct(rs, NotIn(gone));
      TabledDrop(DropAll(refs, n, from, next - 1, keys), Keep(rs, NotIn(gone)), r);
      NotInBoth(rs, gone, {r});
      SegmentRefsStep(n, from, next - 1, keys);
    }
  }

  lemma TrackedAdvance(refs: map<Event, seq<Ref>>, segments: map<nat, Segment>, pending: seq<Ref>, n: nat, next: nat)
    requires Tracked(refs, segments, pending) && n in segments && segments[n].ack <= next <= |segments[n].keys|
    ensures var s := segments[n];
      Tracked(DropAll(refs, n, s.ack, next, s.keys), segments[n := s.(ack := next)],
              Keep(pending, NotIn(SegmentRefs(n, s.ack, next, s.keys))))
  {
    hide Keep;
    var s := segments[n];
    var gone := SegmentRefs(n, s.ack, next, s.keys);
    TabledDropAll(refs, pending, n, s.ack, next, s.keys);
    KeepDistinct(pending, NotIn(gone));
    KeepMembers(pending, NotIn(gone));
    var now := segments[n := s.(ack := next)];
    forall m | m in now ensures TailOf(now[m], Keep(pending, NotIn(gone)), m) {
      assert TailOf(segments[m], pending, m);
      if m == n {
        KeepCommutes(pending, BySegment(n), NotIn(gone));
        TailAdvances(Keep(pending, BySegment(n)), n, s.ack, next, s.keys);
      } else {
        KeepUntouched(pending, BySegment(m), gone);
      }
    }
  }

  lemma SafeGrows(durable: Dir, current: Dir, promised: map<nat, seq<Event>>, delivered: set<Event>, more: set<Event>)
    requires Safe(Image(durable, current), promised, delivered) && delivered <= more
    ensures Safe(Image(durable, current), promised, more)
  {
  }

  lemma NeverAcked(img: Image, promised: map<nat, seq<Event>>, delivered: set<Event>, n: nat)
    requires Safe(img, promised, delivered) && n !in promised
    ensures n !in img.current.acks
  {
  }

  lemma SafeSegment(durable: Dir, current: Dir, promised: map<nat, seq<Event>>, delivered: set<Event>, n: nat, batch: seq<Event>)
    requires Safe(Image(durable, current), promised, delivered) && n !in promised
    ensures Safe(Image(durable, current.(segments := current.segments[n := batch])), promised, delivered)
  {
    var now := current.(segments := current.segments[n := batch]);
    forall m | m in promised ensures Kept(now, m, promised[m], delivered) {
      assert Kept(current, m, promised[m], delivered);
    }
  }

  lemma LawfulLess(segments: map<nat, seq<Event>>, next: nat, envelope: nat, small: bool, n: nat)
    requires Lawful(segments, next, envelope, small)
    ensures Lawful(segments - {n}, next, envelope, small)
  {
    hide Admitted, Fits;
  }

  lemma SafeSync(durable: Dir, current: Dir, promised: map<nat, seq<Event>>, delivered: set<Event>)
    requires Safe(Image(durable, current), promised, delivered)
    ensures Safe(Image(current, current), promised, delivered)
  {
  }

  lemma SafeAck(durable: Dir, current: Dir, promised: map<nat, seq<Event>>, delivered: set<Event>, n: nat, ack: nat)
    requires Safe(Image(durable, current), promised, delivered)
    requires n in promised && ack <= |promised[n]| && AllIn(promised[n][..ack], delivered)
    ensures Safe(Image(durable, current.(acks := current.acks[n := ack])), promised, delivered)
  {
    var now := current.(acks := current.acks[n := ack]);
    forall m | m in promised ensures Kept(now, m, promised[m], delivered) {
      assert Kept(current, m, promised[m], delivered);
    }
  }

  lemma SafeUnlink(durable: Dir, current: Dir, promised: map<nat, seq<Event>>, delivered: set<Event>, n: nat)
    requires Safe(Image(durable, current), promised, delivered) && n in promised && AllIn(promised[n], delivered)
    ensures Safe(Image(durable, current.(segments := current.segments - {n})), promised, delivered)
  {
    var now := current.(segments := current.segments - {n});
    forall m | m in promised ensures Kept(now, m, promised[m], delivered) {
      assert Kept(current, m, promised[m], delivered);
    }
  }

  lemma SafeForget(durable: Dir, current: Dir, promised: map<nat, seq<Event>>, delivered: set<Event>, n: nat)
    requires Safe(Image(durable, current), promised, delivered)
    ensures Safe(Image(durable, current.(acks := current.acks - {n})), promised, delivered)
  {
    var now := current.(acks := current.acks - {n});
    forall m | m in promised ensures Kept(now, m, promised[m], delivered) {
      assert Kept(current, m, promised[m], delivered);
    }
  }

  lemma NewPromise(durable: Dir, current: Dir, segments: map<nat, Segment>, promised: map<nat, seq<Event>>, delivered: set<Event>,
                   name: nat, batch: seq<Event>)
    requires Safe(Image(durable, current), promised, delivered) && SegmentsSound(segments, promised, delivered)
    requires durable == current && name !in promised && name in current.segments && current.segments[name] == batch
    ensures Safe(Image(durable, current), promised[name := batch], delivered)
    ensures SegmentsSound(segments[name := Segment(batch, 0)], promised[name := batch], delivered)
  {
    var now := promised[name := batch];
    forall n | n in now ensures Kept(current, n, now[n], delivered) {
      if n != name { assert Kept(current, n, promised[n], delivered); }
    }
  }

  lemma Adopted(d: Dir, promised: map<nat, seq<Event>>, delivered: set<Event>, n: nat)
    requires Safe(Image(d, d), promised, delivered) && n in d.segments
    ensures n in promised ==> promised[n] == d.segments[n]
    ensures Safe(Image(d, d), promised[n := d.segments[n]], delivered)
    ensures n in d.acks ==> d.acks[n] <= |d.segments[n]| && AllIn(d.segments[n][..d.acks[n]], delivered)
  {
    if n in promised { assert Kept(d, n, promised[n], delivered); }
    assert Kept(d, n, d.segments[n], delivered);
  }

  // What a restart queues again from the segments named below k.
  function Recovered(d: Dir, k: nat): seq<Event> {
    if k == 0 then [] else Recovered(d, k - 1) + Pending(d, k - 1)
  }

  lemma TailEvents(before: seq<Ref>, n: nat, batch: seq<Event>, ack: nat)
    requires ack <= |batch|
    ensures Events(before + NewRefs(n, batch)[ack..]) == Events(before) + batch[ack..]
  {
  }

  lemma TabledAppend(refs: map<Event, seq<Ref>>, rs: seq<Ref>, r: Ref)
    requires Tabled(refs, rs)
    ensures Tabled(Enter(refs, r), rs + [r])
  {
    forall e ensures ListedAs(Enter(refs, r), rs + [r], e) {
      assert ListedAs(refs, rs, e);
      KeepSnoc(rs, r, ByEvent(e));
    }
  }

  lemma {:induction false} TabledAll(refs: map<Event, seq<Ref>>, rs: seq<Ref>, added: seq<Ref>)
    requires Tabled(refs, rs)
    ensures Tabled(EnterAll(refs, added), rs + added)
  {
    if added == [] {
      assert rs + added == rs;
    } else {
      var n := |added| - 1;
      TabledAll(refs, rs, added[..n]);
      TabledAppend(EnterAll(refs, added[..n]), rs + added[..n], added[n]);
      assert rs + added == (rs + added[..n]) + [added[n]];
    }
  }

  lemma TrackedAfter(refs: map<Event, seq<Ref>>, segments: map<nat, Segment>, pending: seq<Ref>, name: nat, batch: seq<Event>, ack: nat)
    requires Tracked(refs, segments, pending) && name !in segments && ack <= |batch|
    ensures var added := NewRefs(name, batch)[ack..];
      Tracked(EnterAll(refs, added), segments[name := Segment(batch, ack)], pending + added)
  {
    TabledAll(refs, pending, NewRefs(name, batch)[ack..]);
    AppendTails(segments, pending, name, batch, ack);
  }

  lemma KeepSnoc(rs: seq<Ref>, r: Ref, p: Ref -> bool)
    ensures Keep(rs + [r], p) == Keep(rs, p) + if p(r) then [r] else []
  {
    assert (rs + [r])[..|rs|] == rs;
  }

  // The segments' tails after one more segment was queued behind the others.
  lemma AddedTails(pending: seq<Ref>, added: seq<Ref>, name: nat, n: nat)
    requires forall r :: r in pending ==> r.segment != name
    requires forall r :: r in added ==> r.segment == name
    ensures Keep(pending + added, BySegment(n)) == if n == name then added else Keep(pending, BySegment(n))
  {
    KeepConcat(pending, added, BySegment(n));
    if n == name {
      KeepNone(pending, BySegment(n));
      KeepAll(added, BySegment(n));
    } else {
      KeepNone(added, BySegment(n));
    }
  }

  lemma AppendTails(segments: map<nat, Segment>, pending: seq<Ref>, name: nat, batch: seq<Event>, ack: nat)
    requires Distinct(pending) && Tailed(segments, pending) && name !in segments && ack <= |batch|
    ensures Distinct(pending + NewRefs(name, batch)[ack..])
    ensures Tailed(segments[name := Segment(batch, ack)], pending + NewRefs(name, batch)[ack..])
  {
    hide Keep;
    var added := NewRefs(name, batch)[ack..];
    var next := segments[name := Segment(batch, ack)];
    forall n | n in next ensures TailOf(next[n], pending + added, n) {
      AddedTails(pending, added, name, n);
      assert n == name || TailOf(segments[n], pending, n);
    }
  }
}
