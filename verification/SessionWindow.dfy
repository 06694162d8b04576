/** Delivery evidence per measurement session: which sessions a publication had as its
    cohort, and what each session's receipts prove about it.

    The pure definitions say what one session and one pair (publication, session) amount
    to. The summary is then stated over all pairs at once, and the sweep over sorted
    session boundaries is shown to compute exactly that.
 */
module SessionWindow {
  import opened Model
  import opened SequenceRanges

  const TICKS_PER_MS: nat := 1_000_000
  const DEFAULT_WINDOW: nat := 10_000 * TICKS_PER_MS

  datatype Kind = Started | Checkpoint | StopMark | Publish | Deliver | Duplicate | Terminated | Unrelated

  // A number that is NaN or infinite is None.
  datatype Latency = Latency(available: bool, synchronized: bool, ms: Option<real>, uncertainty: Option<real>)

  datatype Event = Event(
    kind: Kind, node: ID, session: ID, sequence: uint64, id: ID, at: Time, topic: ID, message: ID,
    windowed: bool, subscribed: Option<set<ID>>, window: Option<Option<nat>>, local: bool, targets: set<ID>, latency: Latency)

  datatype Key = Key(node: ID, session: ID)
  datatype MessageKey = MessageKey(topic: ID, id: ID)

  // ------------------------------------------------------------- one session

  datatype Session = Session(start: Option<Event>, stop: Option<Event>, proofs: seq<Event>, sequences: seq<Range>, invalid: bool)

  datatype Evaluated = Evaluated(
    start: Event, stop: Option<Event>, alive: Time, complete: Time, stopComplete: bool, end: Option<Time>)

  // The end of the unbroken stretch from `start`.
  function ThroughOf(rs: seq<Range>, start: uint64): uint64 {
    if start == 0 || rs == [] then 0
    else if rs[0].last < start then ThroughOf(rs[1..], start)
    else if rs[0].first > start then 0 else rs[0].last
  }

  /** On a canonical list this is the stretch end that SequenceRanges.Through computes. */
  lemma {:induction false} ThroughOfIs(rs: seq<Range>, start: uint64)
    requires Canonical(rs)
    ensures IsThrough(rs, start, ThroughOf(rs, start))
  {
    if start != 0 && rs != [] {
      assert rs == [rs[0]] + rs[1..];
      CanonicalTail(rs);
      HasConsAll(rs[0], rs[1..]);
      ThroughOfIs(rs[1..], start);
      forall x ensures Has(rs[1..], x) ==> rs[0].last as int + 1 < x as int { TailAboveHead(rs, x); }
    }
  }

  predicate Usable(s: Session) {
    && s.start.Some? && s.start.value.subscribed.Some? && !s.invalid && s.start.value.at != 0 && s.start.value.sequence != 0
    && (s.stop.Some? ==> s.start.value.at <= s.stop.value.at && s.start.value.sequence <= s.stop.value.sequence)
  }

  // A checkpoint must lie between the session's own boundaries.
  predicate Consistent(s: Session, p: Event)
    requires s.start.Some?
  {
    && s.start.value.sequence <= p.sequence && s.start.value.at <= p.at && p.at != 0
    && (s.stop.Some? ==> p.sequence <= s.stop.value.sequence && p.at <= s.stop.value.at)
  }

  // The latest time of the proofs numbered up to `limit`.
  function Latest(proofs: seq<Event>, limit: uint64): Time {
    if proofs == [] then 0
    else
      var p, rest := proofs[|proofs| - 1], Latest(proofs[..|proofs| - 1], limit);
      if p.sequence <= limit then MaxInt(rest, p.at) else rest
  }

  const ANY: uint64 := 0xFFFF_FFFF_FFFF_FFFF

  function Evaluate(s: Session): Option<Evaluated> {
    if !Usable(s) || exists p :: p in s.proofs && !Consistent(s, p) then None
    else
      var through := ThroughOf(s.sequences, s.start.value.sequence);
      Some(Evaluated(s.start.value, s.stop, Latest(s.proofs, ANY), Latest(s.proofs, through),
                     s.stop.Some? && s.stop.value.sequence <= through,
                     if s.stop.Some? then Some(s.stop.value.at) else None))
  }

  // A session that can be evaluated: it names its topics, it ended after it began, and every
  // checkpoint lies between the two in time and in number.
  ghost predicate InBounds(s: Session) {
    s.start.Some? && !s.invalid &&
    var a := s.start.value;
    && a.subscribed.Some? && a.at > 0 && a.sequence > 0
    && (s.stop.Some? ==> a.at <= s.stop.value.at && a.sequence <= s.stop.value.sequence)
    && forall p :: p in s.proofs ==>
         && p.at > 0 && a.at <= p.at && a.sequence <= p.sequence
         && (s.stop.Some? ==> p.at <= s.stop.value.at && p.sequence <= s.stop.value.sequence)
  }

  // The latest time of a checkpoint that is among the chosen ones, or 0.
  ghost predicate IsLatest(proofs: seq<Event>, limit: int, at: Time) {
    && (forall p :: p in proofs && p.sequence as int <= limit ==> p.at <= at)
    && (at == 0 || exists p :: p in proofs && p.sequence as int <= limit && p.at == at)
  }

  // With the unbroken stretch from the start ending at `through`.
  ghost predicate Proves(s: Session, through: uint64, v: Evaluated) {
    && s.start.Some? && v.start == s.start.value && v.stop == s.stop
    && IsThrough(s.sequences, s.start.value.sequence, through)
    && IsLatest(s.proofs, 0xFFFF_FFFF_FFFF_FFFF, v.alive) && IsLatest(s.proofs, through as int, v.complete)
    && (v.stopComplete <==> s.stop.Some? && s.stop.value.sequence <= through)
    && v.end == if s.stop.Some? then Some(s.stop.value.at) else None
  }

  /** Alive until the last checkpoint, complete until the last one that no missing number precedes. */
  lemma EvaluateMeans(s: Session)
    ensures Evaluate(s).Some? <==> InBounds(s)
    ensures Evaluate(s).Some? && Canonical(s.sequences) ==> exists through :: Proves(s, through, Evaluate(s).value)
  {
    if Usable(s) {
      var through := ThroughOf(s.sequences, s.start.value.sequence);
      LatestIs(s.proofs, ANY);
      LatestIs(s.proofs, through);
      if Canonical(s.sequences) { ThroughOfIs(s.sequences, s.start.value.sequence); }
      hide Latest, ThroughOf, IsThrough, Canonical;
      if Evaluate(s).Some? && Canonical(s.sequences) { assert Proves(s, through, Evaluate(s).value); }
    }
  }

  method EvaluateSession(s: Session) returns (r: Option<Evaluated>)
    ensures r == Evaluate(s)
    ensures r.Some? <==> InBounds(s)
    ensures r.Some? && Canonical(s.sequences) ==> exists through :: Proves(s, through, r.value)
  {
    EvaluateMeans(s);
    hide InBounds, Proves;
    if !Usable(s) { return None; }
    var through := ThroughOf(s.sequences, s.start.value.sequence);
    var alive, complete: Time := 0, 0;
    for i := 0 to |s.proofs|
      invariant forall j :: 0 <= j < i ==> Consistent(s, s.proofs[j])
      invariant alive == Latest(s.proofs[..i], ANY) && complete == Latest(s.proofs[..i], through)
    {
      var p := s.proofs[i];
      assert s.proofs[..i + 1][..i] == s.proofs[..i];
      if !Consistent(s, p) { return None; }
      if p.at > alive { alive := p.at; }
      if p.sequence <= through && p.at > complete { complete := p.at; }
    }
    assert s.proofs[..|s.proofs|] == s.proofs;
    r := Some(Evaluated(s.start.value, s.stop, alive, complete, s.stop.Some? && s.stop.value.sequence <= through,
                        if s.stop.Some? then Some(s.stop.value.at) else None));
  }

  // A confirmed removal ends the session early: an upper bound, never proof of liveness.
  predicate EndsEarlier(v: Evaluated, t: Event) { v.start.at <= t.at && (v.end.Some? ==> t.at < v.end.value) }

  function Cut(v: Evaluated, t: Event): Evaluated {
    if EndsEarlier(v, t) then v.(end := Some(t.at), stopComplete := false) else v
  }

  function CutAll(v: Evaluated, ts: seq<Event>): Evaluated {
    if ts == [] then v else Cut(CutAll(v, ts[..|ts| - 1]), ts[|ts| - 1])
  }

  // --------------------------------------------------- order of arrival

  function Elements(s: seq<Event>): set<Event> { set e | e in s }

  lemma {:induction false} LatestIs(proofs: seq<Event>, limit: uint64)
    ensures forall p :: p in proofs && p.sequence <= limit ==> p.at <= Latest(proofs, limit)
    ensures Latest(proofs, limit) == 0 || exists p :: p in proofs && p.sequence <= limit && p.at == Latest(proofs, limit)
  {
    if proofs != [] {
      LatestIs(proofs[..|proofs| - 1], limit);
      assert proofs == proofs[..|proofs| - 1] + [proofs[|proofs| - 1]];
    }
  }

  lemma LatestAgrees(a: seq<Event>, b: seq<Event>, limit: uint64)
    requires Elements(a) == Elements(b)
    ensures Latest(a, limit) == Latest(b, limit)
  {
    LatestIs(a, limit);
    LatestIs(b, limit);
    assert forall e :: e in a <==> e in Elements(a);
    assert forall e :: e in b <==> e in Elements(b);
  }

  lemma {:induction false} CutAllIs(v: Evaluated, ts: seq<Event>)
    ensures CutAll(v, ts).start == v.start && CutAll(v, ts).stop == v.stop
    ensures CutAll(v, ts).alive == v.alive && CutAll(v, ts).complete == v.complete
    ensures forall t :: t in ts && EndsEarlier(v, t) ==> CutAll(v, ts).end.Some? && CutAll(v, ts).end.value <= t.at
    ensures CutAll(v, ts) == v
      || (!CutAll(v, ts).stopComplete && exists t :: t in ts && EndsEarlier(v, t) && CutAll(v, ts).end == Some(t.at))
  {
    if ts != [] {
      CutAllIs(v, ts[..|ts| - 1]);
      assert ts == ts[..|ts| - 1] + [ts[|ts| - 1]];
    }
  }

  /** Confirmed removals after the start end the session at the first of them, if that is before its own end. */
  ghost predicate CutOf(u: Evaluated, ts: seq<Event>, v: Evaluated) {
    && v.start == u.start && v.stop == u.stop && v.alive == u.alive && v.complete == u.complete
    && (forall t :: t in ts && u.start.at <= t.at ==> v.end.Some? && v.end.value <= t.at)
    && (u.end.Some? ==> v.end.Some? && v.end.value <= u.end.value)
    && (v.end == u.end ==> v == u)
    && (v.end != u.end ==> !v.stopComplete && exists t :: t in ts && u.start.at <= t.at && v.end == Some(t.at))
  }

  lemma CutAllMeans(v: Evaluated, ts: seq<Event>)
    ensures CutOf(v, ts, CutAll(v, ts))
  {
    CutAllIs(v, ts);
  }

  lemma CutAllAgrees(v: Evaluated, a: seq<Event>, b: seq<Event>)
    requires Elements(a) == Elements(b)
    ensures CutAll(v, a) == CutAll(v, b)
  {
    CutAllIs(v, a);
    CutAllIs(v, b);
    assert forall e :: e in a <==> e in Elements(a);
    assert forall e :: e in b <==> e in Elements(b);
  }

  // Sessions built from the same events, whatever the order of their checkpoints.
  ghost predicate SameSession(a: Session, b: Session) {
    a.start == b.start && a.stop == b.stop && a.sequences == b.sequences && a.invalid == b.invalid && Elements(a.proofs) == Elements(b.proofs)
  }

  lemma SameSessionEvaluates(a: Session, b: Session)
    requires SameSession(a, b)
    ensures Evaluate(a) == Evaluate(b)
  {
    assert forall e :: e in a.proofs <==> e in Elements(a.proofs);
    assert forall e :: e in b.proofs <==> e in Elements(b.proofs);
    if Usable(a) {
      LatestAgrees(a.proofs, b.proofs, ANY);
      LatestAgrees(a.proofs, b.proofs, ThroughOf(a.sequences, a.start.value.sequence));
    }
  }

  // ---------------------------------------------------------------- receipts

  datatype Receipts = Receipts(deliveries: seq<Event>, duplicates: seq<Event>)

  datatype Publication = Publication(key: MessageKey, publisher: ID, targets: set<ID>, at: Time, deadline: Time, valid: bool, local: bool)

  datatype Verdict = Invalid | Late | OnTime

  predicate ClockBounded(l: Latency) {
    l.synchronized && l.available && l.uncertainty.Some? && l.uncertainty.value >= 0.0 && l.ms.Some?
  }

  predicate OutsideSession(e: Event, p: Publication, v: Evaluated) {
    || (!ClockBounded(e.latency) && e.at < p.at) || e.at < v.start.at || e.sequence < v.start.sequence
    || (v.end.Some? && e.at > v.end.value)
    || (v.stop.Some? && (e.at > v.stop.value.at || e.sequence > v.stop.value.sequence))
  }

  function WindowMs(p: Publication): real { (p.deadline - p.at) as real / TICKS_PER_MS as real }

  // What one delivery proves about one publication.
  function Judge(e: Event, p: Publication, v: Evaluated): Verdict {
    if OutsideSession(e, p, v) then Invalid
    else if ClockBounded(e.latency) then
      var upper, lower := e.latency.ms.value + e.latency.uncertainty.value, e.latency.ms.value - e.latency.uncertainty.value;
      if upper < 0.0 then Invalid
      else if upper > WindowMs(p) then (if lower > WindowMs(p) then Late else Invalid)
      else OnTime
    else if e.latency.available && (e.latency.ms.None? || e.latency.ms.value < 0.0) then Invalid
    else if e.at > p.deadline then Late
    else OnTime
  }

  // Between the session's own boundaries, and not after its end.
  ghost predicate InSession(e: Event, v: Evaluated) {
    && v.start.at <= e.at && v.start.sequence <= e.sequence
    && (v.end.Some? ==> e.at <= v.end.value)
    && (v.stop.Some? ==> e.at <= v.stop.value.at && e.sequence <= v.stop.value.sequence)
  }

  // Clocks that are synchronized within a known bound.
  ghost predicate HasBound(l: Latency) {
    l.available && l.synchronized && l.ms.Some? && l.uncertainty.Some? && l.uncertainty.value >= 0.0
  }

  // The window of the publication, in the unit of the latency.
  ghost predicate Beyond(ms: real, p: Publication) { ms * 1_000_000.0 > (p.deadline - p.at) as real }

  /** In time: by the bound of the clocks, or by a stamp within the window and no unusable latency. */
  ghost predicate ProvesOnTime(e: Event, p: Publication, v: Evaluated) {
    InSession(e, v) &&
    if HasBound(e.latency) then
      e.latency.ms.value + e.latency.uncertainty.value >= 0.0 && !Beyond(e.latency.ms.value + e.latency.uncertainty.value, p)
    else
      p.at <= e.at <= p.deadline && (e.latency.available ==> e.latency.ms.Some? && e.latency.ms.value >= 0.0)
  }

  ghost predicate ProvesLate(e: Event, p: Publication, v: Evaluated) {
    InSession(e, v) &&
    if HasBound(e.latency) then
      e.latency.ms.value + e.latency.uncertainty.value >= 0.0 && Beyond(e.latency.ms.value - e.latency.uncertainty.value, p)
    else
      p.at <= e.at && p.deadline < e.at && (e.latency.available ==> e.latency.ms.Some? && e.latency.ms.value >= 0.0)
  }

  lemma BeyondIs(ms: real, p: Publication)
    ensures Beyond(ms, p) <==> ms > WindowMs(p)
  {
    var w, t := (p.deadline - p.at) as real, TICKS_PER_MS as real;
    assert WindowMs(p) * t == w;
  }

  lemma JudgeMeans(e: Event, p: Publication, v: Evaluated)
    ensures Judge(e, p, v) == OnTime <==> ProvesOnTime(e, p, v)
    ensures Judge(e, p, v) == Late <==> ProvesLate(e, p, v)
  {
    if HasBound(e.latency) {
      BeyondIs(e.latency.ms.value + e.latency.uncertainty.value, p);
      BeyondIs(e.latency.ms.value - e.latency.uncertainty.value, p);
    }
    hide Beyond, WindowMs;
  }

  predicate DuplicateCounts(e: Event, p: Publication, v: Evaluated) {
    && p.at <= e.at <= p.deadline && v.start.sequence <= e.sequence
    && (v.end.Some? ==> e.at <= v.end.value)
    && (v.stop.Some? ==> e.at <= v.stop.value.at && e.sequence <= v.stop.value.sequence)
  }

  // How often `f` holds along a list.
  function Number(s: seq<Event>, f: Event -> bool): nat {
    if s == [] then 0 else Number(s[..|s| - 1], f) + if f(s[|s| - 1]) then 1 else 0
  }

  lemma NumberStep(s: seq<Event>, e: Event, f: Event -> bool)
    ensures Number(s + [e], f) == Number(s, f) + if f(e) then 1 else 0
  {
    assert (s + [e])[..|s|] == s;
  }

  lemma {:induction false} NumberAdds(s: seq<Event>, t: seq<Event>, f: Event -> bool)
    ensures Number(s + t, f) == Number(s, f) + Number(t, f)
  {
    if t == [] {
      assert s + t == s;
    } else {
      var init, e := t[..|t| - 1], t[|t| - 1];
      NumberAdds(s, init, f);
      NumberStep(s + init, e, f);
      assert s + t == s + init + [e];
    }
  }

  lemma Around(s: seq<Event>, e: Event) returns (before: seq<Event>, after: seq<Event>)
    requires e in s
    ensures s == before + [e] + after && multiset(s) == multiset(before + after) + multiset{e}
  {
    var i :| 0 <= i < |s| && s[i] == e;
    before, after := s[..i], s[i + 1..];
    assert s == before + [e] + after;
  }

  // How often does not depend on the order.
  lemma {:induction false} NumberAgrees(a: seq<Event>, b: seq<Event>, f: Event -> bool)
    requires multiset(a) == multiset(b)
    ensures Number(a, f) == Number(b, f)
  {
    if a == [] {
      assert |multiset(b)| == |b|;
    } else {
      var init, e := a[..|a| - 1], a[|a| - 1];
      assert a == init + [e];
      assert e in multiset(a);
      var before, after := Around(b, e);
      assert multiset(before + after) + multiset{e} == multiset(init) + multiset{e};
      assert multiset(before + after) == multiset(init) + multiset{e} - multiset{e};
      NumberAgrees(init, before + after, f);
      NumberAdds(before, after, f);
      NumberStep(before, e, f);
      NumberAdds(before + [e], after, f);
    }
  }

  ghost function CountsFor(p: Publication, v: Evaluated): Event -> bool { e => DuplicateCounts(e, p, v) }

  // What the latency of the chosen delivery is worth.
  datatype Quality = NoSample | Sample | BadSample

  function QualityOf(l: Latency): Quality {
    if !l.available then NoSample else if l.ms.Some? && l.ms.value >= 0.0 then Sample else BadSample
  }

  datatype Inspection = Inspection(ontime: bool, late: bool, invalid: bool, duplicates: nat, quality: Quality)

  predicate AnyJudged(deliveries: seq<Event>, p: Publication, v: Evaluated, verdict: Verdict) {
    exists e :: e in deliveries && Judge(e, p, v) == verdict
  }

  // The earliest on-time delivery; among several of that time, the first to arrive.
  ghost function First(deliveries: seq<Event>, p: Publication, v: Evaluated): Option<Event> {
    if deliveries == [] then None
    else
      var known, e := First(deliveries[..|deliveries| - 1], p, v), deliveries[|deliveries| - 1];
      if Judge(e, p, v) == OnTime && (known.None? || e.at < known.value.at) then Some(e) else known
  }

  ghost function Inspect(r: Receipts, p: Publication, v: Evaluated): Inspection {
    var first := First(r.deliveries, p, v);
    Inspection(AnyJudged(r.deliveries, p, v, OnTime), AnyJudged(r.deliveries, p, v, Late), AnyJudged(r.deliveries, p, v, Invalid),
               Number(r.duplicates, CountsFor(p, v)), if first.Some? then QualityOf(first.value.latency) else NoSample)
  }

  // One of the on-time deliveries with the least time.
  ghost predicate Earliest(deliveries: seq<Event>, p: Publication, v: Evaluated, x: Event) {
    x in deliveries && Judge(x, p, v) == OnTime && forall e :: e in deliveries && Judge(e, p, v) == OnTime ==> x.at <= e.at
  }

  lemma {:induction false} FirstIsEarliest(deliveries: seq<Event>, p: Publication, v: Evaluated)
    ensures First(deliveries, p, v).Some? <==> AnyJudged(deliveries, p, v, OnTime)
    ensures First(deliveries, p, v).Some? ==> Earliest(deliveries, p, v, First(deliveries, p, v).value)
    ensures deliveries != [] && Earliest(deliveries, p, v, deliveries[0]) ==> First(deliveries, p, v) == Some(deliveries[0])
  {
    hide Judge;
    if deliveries != [] {
      var init, e := deliveries[..|deliveries| - 1], deliveries[|deliveries| - 1];
      FirstIsEarliest(init, p, v);
      JudgedStep(init, e, p, v, OnTime);
      assert deliveries == init + [e];
      assert forall x :: x in deliveries <==> x in init || x == e;
    }
  }

  lemma JudgedStep(deliveries: seq<Event>, e: Event, p: Publication, v: Evaluated, verdict: Verdict)
    ensures AnyJudged(deliveries + [e], p, v, verdict) <==> AnyJudged(deliveries, p, v, verdict) || Judge(e, p, v) == verdict
  {
    assert forall x :: x in deliveries + [e] <==> x in deliveries || x == e;
  }

  // The first to arrive of the earliest in time.
  ghost predicate FirstInTime(deliveries: seq<Event>, p: Publication, v: Evaluated, x: Event) {
    exists i :: 0 <= i < |deliveries| && deliveries[i] == x && ProvesOnTime(x, p, v)
      && forall j :: 0 <= j < |deliveries| && ProvesOnTime(deliveries[j], p, v) ==> x.at < deliveries[j].at || (x.at == deliveries[j].at && i <= j)
  }

  lemma {:induction false} FirstMeans(deliveries: seq<Event>, p: Publication, v: Evaluated)
    ensures First(deliveries, p, v).Some? <==> exists e :: e in deliveries && ProvesOnTime(e, p, v)
    ensures First(deliveries, p, v).Some? ==> FirstInTime(deliveries, p, v, First(deliveries, p, v).value)
  {
    hide Judge, ProvesOnTime;
    if deliveries != [] {
      var n := |deliveries| - 1;
      var init, e := deliveries[..n], deliveries[n];
      FirstMeans(init, p, v);
      JudgeMeans(e, p, v);
      assert deliveries == init + [e];
      var known, first := First(init, p, v), First(deliveries, p, v);
      if known.Some? && first == known {
        var i :| 0 <= i < n && init[i] == known.value && ProvesOnTime(known.value, p, v)
          && forall j :: 0 <= j < n && ProvesOnTime(init[j], p, v) ==> known.value.at < init[j].at || (known.value.at == init[j].at && i <= j);
        assert deliveries[i] == known.value;
        forall j | 0 <= j < |deliveries| && ProvesOnTime(deliveries[j], p, v)
          ensures known.value.at < deliveries[j].at || (known.value.at == deliveries[j].at && i <= j)
        {
          if j < n { assert init[j] == deliveries[j]; }
        }
      } else if first.Some? {
        forall j | 0 <= j < |deliveries| && ProvesOnTime(deliveries[j], p, v) ensures e.at < deliveries[j].at || (e.at == deliveries[j].at && n <= j) {
          if j < n { assert init[j] == deliveries[j] && init[j] in init; }
        }
        assert deliveries[n] == e;
      }
    }
  }

  lemma AnyMeans(deliveries: seq<Event>, p: Publication, v: Evaluated)
    ensures AnyJudged(deliveries, p, v, OnTime) <==> exists e :: e in deliveries && ProvesOnTime(e, p, v)
    ensures AnyJudged(deliveries, p, v, Late) <==> exists e :: e in deliveries && ProvesLate(e, p, v)
    ensures AnyJudged(deliveries, p, v, Invalid) <==> exists e :: e in deliveries && !ProvesOnTime(e, p, v) && !ProvesLate(e, p, v)
  {
    forall e ensures (Judge(e, p, v) == OnTime <==> ProvesOnTime(e, p, v)) && (Judge(e, p, v) == Late <==> ProvesLate(e, p, v)) { JudgeMeans(e, p, v); }
    hide Judge, ProvesOnTime, ProvesLate;
    forall e ensures Judge(e, p, v) == Invalid <==> !ProvesOnTime(e, p, v) && !ProvesLate(e, p, v) { }
  }

  method InspectDeliveries(deliveries: seq<Event>, p: Publication, v: Evaluated) returns (first: Option<Event>, late: bool, invalid: bool)
    ensures late <==> exists e :: e in deliveries && ProvesLate(e, p, v)
    ensures invalid <==> exists e :: e in deliveries && !ProvesOnTime(e, p, v) && !ProvesLate(e, p, v)
    ensures first.Some? <==> exists e :: e in deliveries && ProvesOnTime(e, p, v)
    ensures first.Some? ==> FirstInTime(deliveries, p, v, first.value)
    ensures late == AnyJudged(deliveries, p, v, Late) && invalid == AnyJudged(deliveries, p, v, Invalid)
    ensures first == First(deliveries, p, v)
  {
    hide Judge, ProvesLate, ProvesOnTime;
    first, late, invalid := None, false, false;
    for i := 0 to |deliveries|
      invariant late == AnyJudged(deliveries[..i], p, v, Late) && invalid == AnyJudged(deliveries[..i], p, v, Invalid)
      invariant first == First(deliveries[..i], p, v)
    {
      var e := deliveries[i];
      assert deliveries[..i + 1] == deliveries[..i] + [e];
      JudgedStep(deliveries[..i], e, p, v, Late);
      JudgedStep(deliveries[..i], e, p, v, Invalid);
      match Judge(e, p, v)
      case Invalid => invalid := true;
      case Late => late := true;
      case OnTime => if first.None? || e.at < first.value.at { first := Some(e); }
    }
    assert deliveries[..|deliveries|] == deliveries;
    AnyMeans(deliveries, p, v);
    FirstMeans(deliveries, p, v);
  }

  ghost predicate RepeatsInTime(e: Event, p: Publication, v: Evaluated) {
    && p.at <= e.at <= p.deadline && v.start.sequence <= e.sequence
    && (v.end.Some? ==> e.at <= v.end.value)
    && (v.stop.Some? ==> e.at <= v.stop.value.at && e.sequence <= v.stop.value.sequence)
  }

  lemma {:induction false} NumberIs(s: seq<Event>, f: Event -> bool)
    ensures Number(s, f) == |set i | 0 <= i < |s| && f(s[i])|
  {
    if s != [] {
      var n := |s| - 1;
      NumberIs(s[..n], f);
      var was, now := set i | 0 <= i < n && f(s[..n][i]), set i | 0 <= i < |s| && f(s[i]);
      forall i ensures i in now <==> i in was || (i == n && f(s[n])) { }
      assert now == was + if f(s[n]) then {n} else {};
    }
  }

  // Absent, usable, or neither.
  ghost predicate Worth(l: Latency, q: Quality) {
    match q
    case NoSample => !l.available
    case Sample => l.available && l.ms.Some? && l.ms.value >= 0.0
    case BadSample => l.available && (l.ms.None? || l.ms.value < 0.0)
  }

  /** What an inspection says, of every delivery and every duplicate. */
  ghost predicate Inspected(r: Receipts, p: Publication, v: Evaluated, n: Inspection) {
    && (n.ontime <==> exists e :: e in r.deliveries && ProvesOnTime(e, p, v))
    && (n.late <==> exists e :: e in r.deliveries && ProvesLate(e, p, v))
    && (n.invalid <==> exists e :: e in r.deliveries && !ProvesOnTime(e, p, v) && !ProvesLate(e, p, v))
    && n.duplicates == |set i | 0 <= i < |r.duplicates| && RepeatsInTime(r.duplicates[i], p, v)|
    && (!n.ontime ==> n.quality == NoSample)
    && (n.ontime ==> exists x :: FirstInTime(r.deliveries, p, v, x) && Worth(x.latency, n.quality))
  }

  lemma InspectMeans(r: Receipts, p: Publication, v: Evaluated)
    ensures Inspected(r, p, v, Inspect(r, p, v))
  {
    hide Judge, ProvesOnTime, ProvesLate;
    AnyMeans(r.deliveries, p, v);
    FirstMeans(r.deliveries, p, v);
    FirstIsEarliest(r.deliveries, p, v);
    NumberIs(r.duplicates, CountsFor(p, v));
    hide First, FirstInTime;
    assert (set i | 0 <= i < |r.duplicates| && CountsFor(p, v)(r.duplicates[i])) == set i | 0 <= i < |r.duplicates| && RepeatsInTime(r.duplicates[i], p, v);
  }

  /** The receipts of one session for one publication; an earliest on-time delivery is the
      one whose latency is reported. */
  method InspectReceipts(r: Receipts, p: Publication, v: Evaluated) returns (result: Inspection)
    ensures result == Inspect(r, p, v) && Inspected(r, p, v, result)
  {
    hide Judge, DuplicateCounts, Inspected;
    InspectMeans(r, p, v);
    var first, late, invalid := InspectDeliveries(r.deliveries, p, v);
    FirstIsEarliest(r.deliveries, p, v);
    var duplicates := 0;
    for i := 0 to |r.duplicates|
      invariant duplicates == Number(r.duplicates[..i], CountsFor(p, v))
    {
      var e := r.duplicates[i];
      assert r.duplicates[..i + 1] == r.duplicates[..i] + [e];
      NumberStep(r.duplicates[..i], e, CountsFor(p, v));
      if DuplicateCounts(e, p, v) { duplicates := duplicates + 1; }
    }
    assert r.duplicates[..|r.duplicates|] == r.duplicates;
    result := Inspection(first.Some?, late, invalid, duplicates, if first.Some? then QualityOf(first.value.latency) else NoSample);
  }

  // The same receipts, in any order.
  ghost predicate SameReceipts(a: Receipts, b: Receipts) {
    multiset(a.deliveries) == multiset(b.deliveries) && multiset(a.duplicates) == multiset(b.duplicates)
  }

  lemma SameMembers(a: seq<Event>, b: seq<Event>)
    requires multiset(a) == multiset(b)
    ensures forall e :: e in a <==> e in b
  {
    assert forall e :: e in a <==> e in multiset(a);
    assert forall e :: e in b <==> e in multiset(b);
  }

  // All earliest on-time deliveries are worth the same.
  ghost predicate TiesAgree(deliveries: seq<Event>, p: Publication, v: Evaluated) {
    forall e, f :: Earliest(deliveries, p, v, e) && Earliest(deliveries, p, v, f) ==> QualityOf(e.latency) == QualityOf(f.latency)
  }

  /** What the receipts prove does not depend on their order, except which of several
      earliest deliveries is chosen for its latency. */
  lemma SameReceiptsInspect(a: Receipts, b: Receipts, p: Publication, v: Evaluated)
    requires SameReceipts(a, b)
    ensures Inspect(a, p, v).(quality := NoSample) == Inspect(b, p, v).(quality := NoSample)
    ensures TiesAgree(a.deliveries, p, v) ==> Inspect(a, p, v) == Inspect(b, p, v)
  {
    hide Judge, DuplicateCounts;
    SameMembers(a.deliveries, b.deliveries);
    NumberAgrees(a.duplicates, b.duplicates, CountsFor(p, v));
    FirstIsEarliest(a.deliveries, p, v);
    FirstIsEarliest(b.deliveries, p, v);
    if First(b.deliveries, p, v).Some? { assert Earliest(a.deliveries, p, v, First(b.deliveries, p, v).value); }
  }

  /** The latency reported is independent of the order exactly if the ties agree. */
  lemma QualityIsDetermined(r: Receipts, p: Publication, v: Evaluated)
    ensures (forall b :: SameReceipts(r, b) ==> Inspect(b, p, v).quality == Inspect(r, p, v).quality) <==> TiesAgree(r.deliveries, p, v)
  {
    hide Judge, DuplicateCounts, Inspect;
    if TiesAgree(r.deliveries, p, v) {
      forall b | SameReceipts(r, b) ensures Inspect(b, p, v).quality == Inspect(r, p, v).quality {
        SameReceiptsInspect(r, b, p, v);
      }
    }
    if forall b :: SameReceipts(r, b) ==> Inspect(b, p, v).quality == Inspect(r, p, v).quality {
      forall e | Earliest(r.deliveries, p, v, e) ensures QualityOf(e.latency) == Inspect(r, p, v).quality {
        var b := ArrivesFirst(r, p, v, e);
        assert SameReceipts(r, b);
      }
    }
  }

  // Any of the earliest deliveries can be the one that is chosen.
  lemma ArrivesFirst(r: Receipts, p: Publication, v: Evaluated, e: Event) returns (b: Receipts)
    requires Earliest(r.deliveries, p, v, e)
    ensures SameReceipts(r, b) && Inspect(b, p, v).quality == QualityOf(e.latency)
  {
    hide Judge;
    var before, after := Around(r.deliveries, e);
    b := r.(deliveries := [e] + (before + after));
    assert multiset([e] + (before + after)) == multiset{e} + multiset(before + after);
    SameMembers(r.deliveries, b.deliveries);
    FirstIsEarliest(b.deliveries, p, v);
  }

  lemma FirstOfTwo(x: Event, y: Event, p: Publication, v: Evaluated)
    requires Judge(x, p, v) == OnTime && Judge(y, p, v) == OnTime && x.at == y.at
    ensures SameReceipts(Receipts([x, y], []), Receipts([y, x], []))
    ensures Inspect(Receipts([x, y], []), p, v).quality == QualityOf(x.latency)
  {
    hide Judge;
    assert multiset([x, y]) == multiset([y, x]);
    FirstIsEarliest([x, y], p, v);
  }

  // Two deliveries at one time, of which only one carries a latency, and that is negative.
  lemma TieMatters() returns (a: Receipts, b: Receipts, p: Publication, v: Evaluated)
    ensures SameReceipts(a, b) && Inspect(a, p, v).quality == NoSample && Inspect(b, p, v).quality == BadSample
  {
    hide Inspect, SameReceipts;
    var start := Event(Started, 2, 1, 1, 0, 1, 0, 0, false, Some({1}), None, false, {}, Latency(false, false, None, None));
    var plain := Event(Deliver, 2, 1, 2, 0, 5, 1, 1, false, None, None, false, {}, Latency(false, false, None, None));
    var negative := Event(Deliver, 2, 1, 3, 0, 5, 1, 1, false, None, None, false, {}, Latency(true, true, Some(-1.0), Some(5.0)));
    a, b := Receipts([plain, negative], []), Receipts([negative, plain], []);
    p, v := Publication(MessageKey(1, 1), 1, {}, 4, 4 + DEFAULT_WINDOW, true, false), Evaluated(start, None, 5, 5, false, None);
    FirstOfTwo(plain, negative, p, v);
    FirstOfTwo(negative, plain, p, v);
  }
}
