/** The delivery summary of a run: over all pairs of a finalized publication and a session
    that was open on its topic. The program sweeps publications over sorted session starts
    and ends; the definition looks at every pair.
 */
module SessionSweep {
  import opened Model
  import opened SessionWindow

  datatype Window = Window(
    sessions: map<Key, Session>, publications: map<MessageKey, Publication>,
    receipts: map<MessageKey, map<Key, Receipts>>, terminations: map<ID, seq<Event>>, incomplete: bool)

  datatype Pair = Pair(publication: MessageKey, session: Key)

  function Terminations(w: Window, node: ID): seq<Event> { if node in w.terminations then w.terminations[node] else [] }

  function ReceiptsOf(w: Window, pair: Pair): Receipts {
    if pair.publication in w.receipts && pair.session in w.receipts[pair.publication]
    then w.receipts[pair.publication][pair.session] else Receipts([], [])
  }

  // A session as the summary uses it: cut by confirmed removals, and not contradicted by them.
  function Effective(w: Window, key: Key): Option<Evaluated> {
    if key !in w.sessions || Evaluate(w.sessions[key]).None? then None
    else
      var v := CutAll(Evaluate(w.sessions[key]).value, Terminations(w, key.node));
      if v.end.Some? && v.alive > v.end.value then None else Some(v)
  }

  predicate Finalized(w: Window, asOf: Time, key: MessageKey) {
    key in w.publications && !w.publications[key].local && w.publications[key].valid && w.publications[key].deadline <= asOf
  }

  predicate OnTopic(v: Evaluated, topic: ID) { v.start.subscribed.Some? && topic in v.start.subscribed.value }

  predicate Open(v: Evaluated, at: Time) { v.start.at <= at && !(v.end.Some? && v.end.value <= at) }

  /** The definition: which pairs the summary is about. */
  predicate Candidate(w: Window, asOf: Time, pair: Pair) {
    && Finalized(w, asOf, pair.publication) && Effective(w, pair.session).Some?
    && var p, v := w.publications[pair.publication], Effective(w, pair.session).value;
    OnTopic(v, pair.publication.topic) && Open(v, p.at) && pair.session.node != p.publisher
  }

  ghost function Candidates(w: Window, asOf: Time): set<Pair> {
    set m, k | m in w.publications && k in w.sessions && Candidate(w, asOf, Pair(m, k)) :: Pair(m, k)
  }

  // ---------------------------------------------------------------- one pair

  datatype Column = Unavailable | InitialExpected | InitialEligible | InitialUnknown | Departed
    | ContinuityUnknown | Expected | Eligible | Unknown | Missed | LateDelivery | Sampled | InvalidDelivery

  predicate In(c: Column, p: Publication, v: Evaluated, r: Inspection) {
    var alive := p.at <= v.alive;
    var departed := v.end.Some? && v.end.value < p.deadline;
    var stable := !departed && p.deadline <= v.alive;
    var unproven := r.invalid || v.complete < p.deadline;
    match c
    case Unavailable => !alive
    case InitialExpected => alive
    case InitialEligible => alive && r.ontime
    case InitialUnknown => alive && !r.ontime && (r.invalid || (departed && !v.stopComplete) || (!departed && v.complete < p.deadline))
    case Departed => alive && departed
    case ContinuityUnknown => alive && !departed && !stable
    case Expected => alive && stable
    case Eligible => alive && stable && r.ontime
    case Unknown => alive && stable && !r.ontime && unproven
    case Missed => alive && stable && !r.ontime && !unproven
    case LateDelivery => alive && stable && !r.ontime && r.late
    case Sampled => alive && stable && r.ontime && r.quality.Sample?
    case InvalidDelivery => alive && stable && if r.ontime then r.quality.BadSample? else r.invalid
  }

  ghost predicate Falls(w: Window, pair: Pair, c: Column) {
    && pair.publication in w.publications && Effective(w, pair.session).Some?
    && var p, v := w.publications[pair.publication], Effective(w, pair.session).value;
    In(c, p, v, Inspect(ReceiptsOf(w, pair), p, v))
  }

  ghost function Count(w: Window, pairs: set<Pair>, c: Column): nat { |set p | p in pairs && Falls(w, p, c)| }

  // The duplicates that count for one eligible pair, and for all of them.
  ghost function PairDuplicates(w: Window, pair: Pair): nat {
    if Falls(w, pair, Eligible)
    then Number(ReceiptsOf(w, pair).duplicates, CountsFor(w.publications[pair.publication], Effective(w, pair.session).value))
    else 0
  }

  ghost function Duplicates(w: Window, pairs: set<Pair>): nat {
    if pairs == {} then 0
    else
      var p :| p in pairs;
      Duplicates(w, pairs - {p}) + PairDuplicates(w, p)
  }

  // ------------------------------------------------------------- the totals

  datatype Counts = Counts(
    unavailable: nat, initialExpected: nat, initialEligible: nat, initialUnknown: nat, departed: nat, continuityUnknown: nat,
    expected: nat, eligible: nat, unknown: nat, missed: nat, late: nat, sampled: nat, invalid: nat, duplicates: nat)

  const ZERO: Counts := Counts(0, 0, 0, 0, 0, 0, 0, 0, 0, 0, 0, 0, 0, 0)

  function Value(n: Counts, c: Column): nat {
    match c
    case Unavailable => n.unavailable
    case InitialExpected => n.initialExpected
    case InitialEligible => n.initialEligible
    case InitialUnknown => n.initialUnknown
    case Departed => n.departed
    case ContinuityUnknown => n.continuityUnknown
    case Expected => n.expected
    case Eligible => n.eligible
    case Unknown => n.unknown
    case Missed => n.missed
    case LateDelivery => n.late
    case Sampled => n.sampled
    case InvalidDelivery => n.invalid
  }

  ghost predicate Totals(w: Window, pairs: set<Pair>, n: Counts) {
    && (forall c :: Value(n, c) == Count(w, pairs, c)) && n.duplicates == Duplicates(w, pairs)
  }

  // The two columns that depend on which of several earliest deliveries is chosen.
  predicate Sampling(c: Column) { c.Sampled? || c.InvalidDelivery? }

  lemma ValuesAreCounts(m: Counts, n: Counts)
    requires m.duplicates == n.duplicates && forall c :: !Sampling(c) ==> Value(m, c) == Value(n, c)
    ensures m.(sampled := 0, invalid := 0) == n.(sampled := 0, invalid := 0)
    ensures Value(m, Sampled) == Value(n, Sampled) && Value(m, InvalidDelivery) == Value(n, InvalidDelivery) ==> m == n
  {
    assert Value(m, Unavailable) == Value(n, Unavailable) && Value(m, InitialExpected) == Value(n, InitialExpected);
    assert Value(m, InitialEligible) == Value(n, InitialEligible) && Value(m, InitialUnknown) == Value(n, InitialUnknown);
    assert Value(m, Departed) == Value(n, Departed) && Value(m, ContinuityUnknown) == Value(n, ContinuityUnknown);
    assert Value(m, Expected) == Value(n, Expected) && Value(m, Eligible) == Value(n, Eligible);
    assert Value(m, Unknown) == Value(n, Unknown) && Value(m, Missed) == Value(n, Missed) && Value(m, LateDelivery) == Value(n, LateDelivery);
  }

  /** Every total follows from the set of pairs alone. */
  lemma TotalsAreDetermined(w: Window, pairs: set<Pair>, m: Counts, n: Counts)
    requires Totals(w, pairs, m) && Totals(w, pairs, n)
    ensures m == n
  {
    hide Count, Duplicates;
    forall c ensures Value(m, c) == Value(n, c) { }
    ValuesAreCounts(m, n);
  }

  // Counting one pair, in the branches of the program.
  function Add(n: Counts, p: Publication, v: Evaluated, r: Inspection): Counts {
    if v.alive < p.at then n.(unavailable := n.unavailable + 1)
    else
      var departed := v.end.Some? && v.end.value < p.deadline;
      var stable := !departed && p.deadline <= v.alive;
      var n1 := n.(initialExpected := n.initialExpected + 1);
      var n2 := if r.ontime then n1.(initialEligible := n1.initialEligible + 1)
        else if r.invalid || (departed && !v.stopComplete) || (!departed && v.complete < p.deadline)
          then n1.(initialUnknown := n1.initialUnknown + 1) else n1;
      if departed then n2.(departed := n2.departed + 1)
      else if !stable then n2.(continuityUnknown := n2.continuityUnknown + 1)
      else
        var n3 := n2.(expected := n2.expected + 1);
        if r.ontime then
          var n4 := n3.(eligible := n3.eligible + 1, duplicates := n3.duplicates + r.duplicates);
          match r.quality
          case Sample => n4.(sampled := n4.sampled + 1)
          case BadSample => n4.(invalid := n4.invalid + 1)
          case NoSample => n4
        else
          var n4 := if r.invalid || v.complete < p.deadline then n3.(unknown := n3.unknown + 1) else n3.(missed := n3.missed + 1);
          var n5 := if r.late then n4.(late := n4.late + 1) else n4;
          if r.invalid then n5.(invalid := n5.invalid + 1) else n5
  }

  lemma AddIs(n: Counts, p: Publication, v: Evaluated, r: Inspection)
    ensures forall c :: Value(Add(n, p, v, r), c) == Value(n, c) + if In(c, p, v, r) then 1 else 0
    ensures Add(n, p, v, r).duplicates == n.duplicates + if In(Eligible, p, v, r) then r.duplicates else 0
  {
    forall c ensures Value(Add(n, p, v, r), c) == Value(n, c) + if In(c, p, v, r) then 1 else 0 {
      AddInColumn(n, p, v, r, c);
    }
  }

  // What counting one pair does to a total.
  ghost predicate CountedWhen(was: nat, now: nat, when: bool) { now == was + if when then 1 else 0 }

  /** The table of one pair. A session that was not alive at the publication is set apart. Of the
      others, the initial cohort, each has departed before the deadline, is unproven to have
      stayed, or is expected to have received the message. */
  lemma AddMeans(n: Counts, p: Publication, v: Evaluated, r: Inspection)
    ensures var m := Add(n, p, v, r);
      var alive, departed := p.at <= v.alive, v.end.Some? && v.end.value < p.deadline;
      var stayed := alive && !departed && p.deadline <= v.alive;
      && CountedWhen(n.unavailable, m.unavailable, !alive) && CountedWhen(n.initialExpected, m.initialExpected, alive)
      && CountedWhen(n.initialEligible, m.initialEligible, alive && r.ontime)
      && CountedWhen(n.initialUnknown, m.initialUnknown,
           alive && !r.ontime && (r.invalid || (if departed then !v.stopComplete else v.complete < p.deadline)))
      && CountedWhen(n.departed, m.departed, alive && departed)
      && CountedWhen(n.continuityUnknown, m.continuityUnknown, alive && !departed && v.alive < p.deadline)
      && CountedWhen(n.expected, m.expected, stayed) && CountedWhen(n.eligible, m.eligible, stayed && r.ontime)
      && CountedWhen(n.unknown, m.unknown, stayed && !r.ontime && (r.invalid || v.complete < p.deadline))
      && CountedWhen(n.missed, m.missed, stayed && !r.ontime && !r.invalid && p.deadline <= v.complete)
      && CountedWhen(n.late, m.late, stayed && !r.ontime && r.late)
      && CountedWhen(n.sampled, m.sampled, stayed && r.ontime && r.quality.Sample?)
      && CountedWhen(n.invalid, m.invalid, stayed && ((r.ontime && r.quality.BadSample?) || (!r.ontime && r.invalid)))
      && m.duplicates == n.duplicates + if stayed && r.ontime then r.duplicates else 0
  {
  }

  /** The pairs the summary is about: of every publication that is valid, not local and past its
      deadline, the sessions of other nodes that had subscribed to its topic and were open. */
  lemma CandidateMeans(w: Window, asOf: Time, pair: Pair)
    ensures Candidate(w, asOf, pair) <==>
      && pair.publication in w.publications && pair.session in w.sessions
      && (var p := w.publications[pair.publication];
          p.valid && !p.local && p.deadline <= asOf && p.publisher != pair.session.node
          && exists v :: InForce(w, pair.session, v) && v.start.subscribed.Some? && pair.publication.topic in v.start.subscribed.value
               && v.start.at <= p.at && (v.end.Some? ==> p.at < v.end.value))
  {
    EffectiveMeans(w, pair.session);
    hide Effective, InForce;
    if Effective(w, pair.session).Some? { assert InForce(w, pair.session, Effective(w, pair.session).value); }
  }

  // The session as evaluated, ended by the first confirmed removal of its node, unless a later checkpoint contradicts that.
  ghost predicate InForce(w: Window, key: Key, v: Evaluated) {
    && key in w.sessions && Evaluate(w.sessions[key]).Some?
    && (var u := Evaluate(w.sessions[key]).value;
        var ts := if key.node in w.terminations then w.terminations[key.node] else [];
        CutOf(u, ts, v))
    && (v.end.Some? ==> v.alive <= v.end.value)
  }

  lemma EffectiveMeans(w: Window, key: Key)
    ensures forall v :: InForce(w, key, v) <==> Effective(w, key) == Some(v)
    ensures Effective(w, key).Some? ==> key in w.sessions
  {
    hide Evaluate, CutAll;
    if key in w.sessions && Evaluate(w.sessions[key]).Some? {
      CutAllMeans(Evaluate(w.sessions[key]).value, Terminations(w, key.node));
      forall v ensures InForce(w, key, v) <==> Effective(w, key) == Some(v) {
        if InForce(w, key, v) { SameCut(Evaluate(w.sessions[key]).value, Terminations(w, key.node), v, CutAll(Evaluate(w.sessions[key]).value, Terminations(w, key.node))); }
      }
    }
  }

  lemma SameCut(u: Evaluated, ts: seq<Event>, v: Evaluated, c: Evaluated)
    requires CutOf(u, ts, v) && CutOf(u, ts, c)
    ensures v == c
  {
  }

  ghost predicate Received(w: Window, pair: Pair, e: Event) {
    && pair.publication in w.receipts && pair.session in w.receipts[pair.publication]
    && e in w.receipts[pair.publication][pair.session].deliveries
  }

  // It was alive at the publication and at the deadline, and did not depart in between.
  ghost predicate Stayed(p: Publication, v: Evaluated) {
    p.at <= v.alive && p.deadline <= v.alive && (v.end.Some? ==> p.deadline <= v.end.value)
  }

  ghost predicate EligiblePair(w: Window, pair: Pair) {
    && pair.publication in w.publications
    && exists v :: InForce(w, pair.session, v) && Stayed(w.publications[pair.publication], v)
         && exists e :: Received(w, pair, e) && ProvesOnTime(e, w.publications[pair.publication], v)
  }

  // It stayed, its record is complete up to the deadline, and every delivery in it came too late.
  ghost predicate MissedPair(w: Window, pair: Pair) {
    && pair.publication in w.publications
    && exists v :: InForce(w, pair.session, v) && Stayed(w.publications[pair.publication], v)
         && w.publications[pair.publication].deadline <= v.complete
         && forall e :: Received(w, pair, e) ==> ProvesLate(e, w.publications[pair.publication], v)
  }

  lemma LateIsNotOnTime(e: Event, p: Publication, v: Evaluated)
    ensures !(ProvesLate(e, p, v) && ProvesOnTime(e, p, v))
  {
  }

  lemma FallsMeans(w: Window, pair: Pair)
    ensures Falls(w, pair, Eligible) <==> EligiblePair(w, pair)
    ensures Falls(w, pair, Missed) <==> MissedPair(w, pair)
  {
    EffectiveMeans(w, pair.session);
    hide Effective, InForce, Inspect, ProvesOnTime, ProvesLate;
    if pair.publication in w.publications && Effective(w, pair.session).Some? {
      var p, v := w.publications[pair.publication], Effective(w, pair.session).value;
      InspectMeans(ReceiptsOf(w, pair), p, v);
      assert InForce(w, pair.session, v);
      forall e ensures Received(w, pair, e) <==> e in ReceiptsOf(w, pair).deliveries { }
      forall e ensures !(ProvesLate(e, p, v) && ProvesOnTime(e, p, v)) { LateIsNotOnTime(e, p, v); }
    }
  }

  /** The two counts of the delivery ratio, without the table. */
  lemma SummaryMeans(w: Window, pairs: set<Pair>, n: Counts)
    requires Totals(w, pairs, n)
    ensures n.eligible == |set p | p in pairs && EligiblePair(w, p)| && n.missed == |set p | p in pairs && MissedPair(w, p)|
  {
    hide Falls, EligiblePair, MissedPair;
    forall p ensures (Falls(w, p, Eligible) <==> EligiblePair(w, p)) && (Falls(w, p, Missed) <==> MissedPair(w, p)) { FallsMeans(w, p); }
    assert Value(n, Eligible) == Count(w, pairs, Eligible) && Value(n, Missed) == Count(w, pairs, Missed);
    assert (set p | p in pairs && Falls(w, p, Eligible)) == set p | p in pairs && EligiblePair(w, p);
    assert (set p | p in pairs && Falls(w, p, Missed)) == set p | p in pairs && MissedPair(w, p);
  }

  lemma AddInColumn(n: Counts, p: Publication, v: Evaluated, r: Inspection, c: Column)
    ensures Value(Add(n, p, v, r), c) == Value(n, c) + if In(c, p, v, r) then 1 else 0
  {
  }

  lemma CountStep(w: Window, pairs: set<Pair>, pair: Pair, c: Column)
    requires pair !in pairs
    ensures Count(w, pairs + {pair}, c) == Count(w, pairs, c) + if Falls(w, pair, c) then 1 else 0
  {
    hide Falls;
    var before, after := set p | p in pairs && Falls(w, p, c), set p | p in pairs + {pair} && Falls(w, p, c);
    if Falls(w, pair, c) {
      assert after == before + {pair};
    } else {
      assert after == before;
    }
  }

  // The sum does not depend on the order in which the pairs are visited.
  lemma {:induction false} DuplicatesWithout(w: Window, pairs: set<Pair>, pair: Pair)
    requires pair in pairs
    ensures Duplicates(w, pairs) == Duplicates(w, pairs - {pair}) + PairDuplicates(w, pair)
  {
    hide PairDuplicates;
    var p :| p in pairs && Duplicates(w, pairs) == Duplicates(w, pairs - {p}) + PairDuplicates(w, p);
    if p != pair {
      DuplicatesWithout(w, pairs - {p}, pair);
      DuplicatesWithout(w, pairs - {pair}, p);
      assert pairs - {p} - {pair} == pairs - {pair} - {p};
    }
  }

  // Adding one more pair keeps the totals exact.
  lemma TotalsStep(w: Window, pairs: set<Pair>, n: Counts, pair: Pair)
    requires Totals(w, pairs, n) && pair !in pairs
    requires pair.publication in w.publications && Effective(w, pair.session).Some?
    ensures var p, v := w.publications[pair.publication], Effective(w, pair.session).value;
      Totals(w, pairs + {pair}, Add(n, p, v, Inspect(ReceiptsOf(w, pair), p, v)))
  {
    hide Effective, Inspect, In, Add, Number, Count, Duplicates;
    var p, v := w.publications[pair.publication], Effective(w, pair.session).value;
    AddIs(n, p, v, Inspect(ReceiptsOf(w, pair), p, v));
    forall c ensures Value(Add(n, p, v, Inspect(ReceiptsOf(w, pair), p, v)), c) == Count(w, pairs + {pair}, c) {
      CountStep(w, pairs, pair, c);
    }
    DuplicatesWithout(w, pairs + {pair}, pair);
    assert pairs + {pair} - {pair} == pairs;
    InspectDuplicates(ReceiptsOf(w, pair), p, v);
  }

  lemma InspectDuplicates(r: Receipts, p: Publication, v: Evaluated)
    ensures Inspect(r, p, v).duplicates == Number(r.duplicates, CountsFor(p, v))
  {
  }

  // ---------------------------------------------------------- conservation

  // What holds of every table built pair by pair.
  predicate Balanced(n: Counts) {
    && n.initialExpected == n.departed + n.continuityUnknown + n.expected
    && n.expected == n.eligible + n.unknown + n.missed
    && n.eligible <= n.initialEligible && n.initialEligible + n.initialUnknown <= n.initialExpected
    && n.late <= n.unknown + n.missed && n.sampled <= n.eligible && n.invalid + n.sampled <= n.unknown + n.eligible
  }

  function One(b: bool): nat { if b then 1 else 0 }

  // The columns of one pair add up.
  lemma ColumnsPartition(p: Publication, v: Evaluated, r: Inspection)
    ensures One(In(InitialExpected, p, v, r)) == One(In(Departed, p, v, r)) + One(In(ContinuityUnknown, p, v, r)) + One(In(Expected, p, v, r))
    ensures One(In(Expected, p, v, r)) == One(In(Eligible, p, v, r)) + One(In(Unknown, p, v, r)) + One(In(Missed, p, v, r))
    ensures In(Eligible, p, v, r) ==> In(InitialEligible, p, v, r)
    ensures One(In(InitialEligible, p, v, r)) + One(In(InitialUnknown, p, v, r)) <= One(In(InitialExpected, p, v, r))
    ensures One(In(LateDelivery, p, v, r)) <= One(In(Unknown, p, v, r)) + One(In(Missed, p, v, r))
    ensures In(Sampled, p, v, r) ==> In(Eligible, p, v, r)
    ensures In(InvalidDelivery, p, v, r) ==> In(Unknown, p, v, r) || (In(Eligible, p, v, r) && !In(Sampled, p, v, r))
  {
  }

  /** Adding any pair keeps the totals a partition of the initial cohort. */
  lemma AddBalances(n: Counts, p: Publication, v: Evaluated, r: Inspection)
    requires Balanced(n)
    ensures Balanced(Add(n, p, v, r))
  {
    hide Add, In;
    AddIs(n, p, v, r);
    ColumnsPartition(p, v, r);
    var m := Add(n, p, v, r);
    assert Value(m, Unavailable) == m.unavailable && Value(m, InitialExpected) == m.initialExpected;
    assert Value(m, InitialEligible) == m.initialEligible && Value(m, InitialUnknown) == m.initialUnknown;
    assert Value(m, Departed) == m.departed && Value(m, ContinuityUnknown) == m.continuityUnknown;
    assert Value(m, Expected) == m.expected && Value(m, Eligible) == m.eligible && Value(m, Unknown) == m.unknown;
    assert Value(m, Missed) == m.missed && Value(m, LateDelivery) == m.late && Value(m, Sampled) == m.sampled && Value(m, InvalidDelivery) == m.invalid;
  }

  // A ratio of two counts.
  function Ratio(part: nat, whole: nat): real
    requires whole > 0
  {
    part as real / whole as real
  }

  lemma RatioOrder(a: nat, b: nat, whole: nat)
    requires whole > 0 && a <= b <= whole
    ensures 0.0 <= Ratio(a, whole) <= Ratio(b, whole) <= 1.0
  {
  }

  /** Every reported ratio lies between 0 and its upper bound, and that below 1. */
  lemma RatiosAreBounded(n: Counts)
    requires Balanced(n)
    ensures n.expected > 0 ==> 0.0 <= Ratio(n.eligible, n.expected) <= Ratio(n.eligible + n.unknown, n.expected) <= 1.0
    ensures n.initialExpected > 0 ==>
      && 0.0 <= Ratio(n.initialEligible, n.initialExpected) <= Ratio(n.initialEligible + n.initialUnknown, n.initialExpected) <= 1.0
      && 0.0 <= Ratio(n.expected, n.initialExpected) <= Ratio(n.expected + n.continuityUnknown, n.initialExpected) <= 1.0
  {
    if n.expected > 0 { RatioOrder(n.eligible, n.eligible + n.unknown, n.expected); }
    if n.initialExpected > 0 {
      RatioOrder(n.initialEligible, n.initialEligible + n.initialUnknown, n.initialExpected);
      RatioOrder(n.expected, n.expected + n.continuityUnknown, n.initialExpected);
    }
  }

  // --------------------------------------------------------- sorted indexes

  datatype Mark<K> = Mark(key: K, at: Time)

  ghost predicate Sorted<K>(ms: seq<Mark<K>>) { forall i, j :: 0 <= i < j < |ms| ==> ms[i].at <= ms[j].at }

  ghost predicate UniqueKeys<K>(ms: seq<Mark<K>>) { forall i, j :: 0 <= i < j < |ms| ==> ms[i].key != ms[j].key }

  function Place<K>(m: Mark<K>, ms: seq<Mark<K>>): seq<Mark<K>> {
    if ms == [] || m.at <= ms[0].at then [m] + ms else [ms[0]] + Place(m, ms[1..])
  }

  function SortMarks<K>(ms: seq<Mark<K>>): seq<Mark<K>> { if ms == [] then [] else Place(ms[0], SortMarks(ms[1..])) }

  ghost predicate Below<K(!new)>(m: Mark<K>, ms: seq<Mark<K>>) { forall x :: x in ms ==> m.at <= x.at }

  ghost predicate Apart<K(!new)>(m: Mark<K>, ms: seq<Mark<K>>) { forall x :: x in ms ==> x.key != m.key }

  lemma ConsSorted<K(!new)>(m: Mark<K>, ms: seq<Mark<K>>)
    ensures Sorted([m] + ms) <==> Sorted(ms) && Below(m, ms)
  {
    var all := [m] + ms;
    if Sorted(all) {
      forall x | x in ms ensures m.at <= x.at {
        var i :| 0 <= i < |ms| && ms[i] == x;
        assert all[0].at <= all[i + 1].at;
      }
      forall i, j | 0 <= i < j < |ms| ensures ms[i].at <= ms[j].at { assert all[i + 1].at <= all[j + 1].at; }
    }
    if Sorted(ms) && Below(m, ms) {
      forall i, j | 0 <= i < j < |all| ensures all[i].at <= all[j].at {
        assert all[j] == ms[j - 1] && ms[j - 1] in ms;
        assert i > 0 ==> all[i] == ms[i - 1];
      }
    }
  }

  lemma ConsUnique<K(!new)>(m: Mark<K>, ms: seq<Mark<K>>)
    ensures UniqueKeys([m] + ms) <==> UniqueKeys(ms) && Apart(m, ms)
  {
    var all := [m] + ms;
    if UniqueKeys(all) {
      forall x | x in ms ensures x.key != m.key {
        var i :| 0 <= i < |ms| && ms[i] == x;
        assert all[0].key != all[i + 1].key;
      }
      forall i, j | 0 <= i < j < |ms| ensures ms[i].key != ms[j].key { assert all[i + 1].key != all[j + 1].key; }
    }
    if UniqueKeys(ms) && Apart(m, ms) {
      forall i, j | 0 <= i < j < |all| ensures all[i].key != all[j].key {
        assert all[j] == ms[j - 1] && ms[j - 1] in ms;
        assert i > 0 ==> all[i] == ms[i - 1];
      }
    }
  }

  lemma Cons<K(!new)>(m: Mark<K>, ms: seq<Mark<K>>)
    ensures Sorted([m] + ms) <==> Sorted(ms) && Below(m, ms)
    ensures UniqueKeys([m] + ms) <==> UniqueKeys(ms) && Apart(m, ms)
    ensures forall x :: x in [m] + ms <==> x == m || x in ms
  {
    hide Sorted, UniqueKeys, Below, Apart;
    ConsSorted(m, ms);
    ConsUnique(m, ms);
  }

  lemma {:induction false} PlaceIs<K(!new)>(m: Mark<K>, ms: seq<Mark<K>>)
    requires Sorted(ms) && UniqueKeys(ms) && Apart(m, ms)
    ensures Sorted(Place(m, ms)) && UniqueKeys(Place(m, ms))
    ensures forall x :: x in Place(m, ms) <==> x == m || x in ms
  {
    hide Sorted, UniqueKeys;
    if ms != [] {
      Cons(ms[0], ms[1..]);
      assert ms == [ms[0]] + ms[1..];
    }
    if ms == [] || m.at <= ms[0].at {
      Cons(m, ms);
    } else {
      PlaceIs(m, ms[1..]);
      Cons(ms[0], Place(m, ms[1..]));
    }
  }

  lemma {:induction false} SortMarksIs<K(!new)>(ms: seq<Mark<K>>)
    requires UniqueKeys(ms)
    ensures Sorted(SortMarks(ms)) && UniqueKeys(SortMarks(ms)) && forall x :: x in SortMarks(ms) <==> x in ms
  {
    if ms != [] {
      Cons(ms[0], ms[1..]);
      assert ms == [ms[0]] + ms[1..];
      SortMarksIs(ms[1..]);
      PlaceIs(ms[0], SortMarks(ms[1..]));
    }
  }

  datatype Index = Index(starts: seq<Mark<Key>>, ends: seq<Mark<Key>>, publications: seq<Mark<MessageKey>>)

  predicate Starts(w: Window, topic: ID, m: Mark<Key>) {
    Effective(w, m.key).Some? && OnTopic(Effective(w, m.key).value, topic) && m.at == Effective(w, m.key).value.start.at
  }

  predicate Ends(w: Window, topic: ID, m: Mark<Key>) {
    Effective(w, m.key).Some? && OnTopic(Effective(w, m.key).value, topic) && Effective(w, m.key).value.end == Some(m.at)
  }

  predicate Publishes(w: Window, asOf: Time, topic: ID, m: Mark<MessageKey>) {
    Finalized(w, asOf, m.key) && m.key.topic == topic && m.at == w.publications[m.key].at
  }

  // The boundaries of the sessions in `done` and the publications in `published`.
  ghost predicate Indexed(w: Window, asOf: Time, done: set<Key>, published: set<MessageKey>, topic: ID, ix: Index) {
    && UniqueKeys(ix.starts) && UniqueKeys(ix.ends) && UniqueKeys(ix.publications)
    && (forall m :: m in ix.starts <==> m.key in done && Starts(w, topic, m))
    && (forall m :: m in ix.ends <==> m.key in done && Ends(w, topic, m))
    && (forall m :: m in ix.publications <==> m.key in published && Publishes(w, asOf, topic, m))
  }

  function At(topics: map<ID, Index>, topic: ID): Index { if topic in topics then topics[topic] else Index([], [], []) }

  function WithSession(ix: Index, key: Key, v: Evaluated): Index {
    Index(ix.starts + [Mark(key, v.start.at)], if v.end.Some? then ix.ends + [Mark(key, v.end.value)] else ix.ends, ix.publications)
  }

  lemma IndexSession(w: Window, asOf: Time, done: set<Key>, published: set<MessageKey>, topic: ID, ix: Index, key: Key)
    requires Indexed(w, asOf, done, published, topic, ix) && key !in done
    ensures Indexed(w, asOf, done + {key}, published, topic,
              if Effective(w, key).Some? && OnTopic(Effective(w, key).value, topic) then WithSession(ix, key, Effective(w, key).value) else ix)
  {
    hide Effective;
    assert forall m :: m in ix.starts ==> m.key in done;
    assert forall m :: m in ix.ends ==> m.key in done;
    assert forall i :: 0 <= i < |ix.starts| ==> ix.starts[i] in ix.starts;
    assert forall i :: 0 <= i < |ix.ends| ==> ix.ends[i] in ix.ends;
  }

  lemma IndexPublication(w: Window, asOf: Time, done: set<Key>, published: set<MessageKey>, topic: ID, ix: Index, key: MessageKey)
    requires Indexed(w, asOf, done, published, topic, ix) && key !in published
    ensures Indexed(w, asOf, done, published + {key}, topic,
              if Finalized(w, asOf, key) && key.topic == topic
              then ix.(publications := ix.publications + [Mark(key, w.publications[key].at)]) else ix)
  {
    hide Effective;
    assert forall m :: m in ix.publications ==> m.key in published;
    assert forall i :: 0 <= i < |ix.publications| ==> ix.publications[i] in ix.publications;
  }

  // Enter a session under each of its topics.
  method IndexTopics(start: map<ID, Index>, key: Key, v: Evaluated) returns (topics: map<ID, Index>)
    requires v.start.subscribed.Some?
    ensures forall t :: At(topics, t) == if OnTopic(v, t) then WithSession(At(start, t), key, v) else At(start, t)
  {
    topics := start;
    var todo := v.start.subscribed.value;
    while todo != {}
      invariant todo <= v.start.subscribed.value
      invariant forall t :: At(topics, t) == if OnTopic(v, t) && t !in todo then WithSession(At(start, t), key, v) else At(start, t)
      decreases todo
    {
      var t :| t in todo;
      topics := topics[t := WithSession(At(topics, t), key, v)];
      todo := todo - {t};
    }
  }

  lemma EffectiveIsSubscribed(w: Window, key: Key)
    requires Effective(w, key).Some?
    ensures key in w.sessions && Effective(w, key).value.start.subscribed.Some?
    ensures Effective(w, key).value.end.Some? ==> Effective(w, key).value.start.at <= Effective(w, key).value.end.value
  {
    CutAllIs(Evaluate(w.sessions[key]).value, Terminations(w, key.node));
  }

  ghost predicate AllIndexed(w: Window, asOf: Time, done: set<Key>, published: set<MessageKey>, topics: map<ID, Index>) {
    forall t :: Indexed(w, asOf, done, published, t, At(topics, t))
  }

  method BuildIndexes(w: Window, asOf: Time) returns (topics: map<ID, Index>)
    ensures AllIndexed(w, asOf, w.sessions.Keys, w.publications.Keys, topics)
  {
    hide Effective, Evaluate;
    topics := map[];
    var sessions := w.sessions.Keys;
    ghost var done: set<Key> := {};
    while sessions != {}
      invariant sessions + done == w.sessions.Keys && sessions !! done
      invariant AllIndexed(w, asOf, done, {}, topics)
      decreases sessions
    {
      var key :| key in sessions;
      ghost var before := topics;
      var v := Effective(w, key);
      if v.Some? {
        EffectiveIsSubscribed(w, key);
        topics := IndexTopics(topics, key, v.value);
      }
      forall t ensures Indexed(w, asOf, done + {key}, {}, t, At(topics, t)) {
        assert Indexed(w, asOf, done, {}, t, At(before, t));
        IndexSession(w, asOf, done, {}, t, At(before, t), key);
      }
      sessions, done := sessions - {key}, done + {key};
    }
    assert done == w.sessions.Keys;
    var publications := w.publications.Keys;
    ghost var published: set<MessageKey> := {};
    while publications != {}
      invariant publications + published == w.publications.Keys && publications !! published
      invariant AllIndexed(w, asOf, done, published, topics)
      decreases publications
    {
      var key :| key in publications;
      ghost var before := topics;
      if Finalized(w, asOf, key) {
        var ix := At(topics, key.topic);
        topics := topics[key.topic := ix.(publications := ix.publications + [Mark(key, w.publications[key].at)])];
      }
      forall t ensures Indexed(w, asOf, done, published + {key}, t, At(topics, t)) {
        assert Indexed(w, asOf, done, published, t, At(before, t));
        IndexPublication(w, asOf, done, published, t, At(before, t), key);
      }
      publications, published := publications - {key}, published + {key};
    }
    assert published == w.publications.Keys;
  }

  // --------------------------------------------------------------- the sweep

  // Marks up to a time are a prefix of the sorted list.
  ghost predicate Passed<K>(ms: seq<Mark<K>>, i: nat, at: Time) {
    && i <= |ms|
    && (forall j :: 0 <= j < i ==> ms[j].at <= at)
    && (forall j :: i <= j < |ms| ==> at < ms[j].at)
  }

  function KeysOf<K>(ms: seq<Mark<K>>): set<K> { set m | m in ms :: m.key }

  // Started and not ended, as far as the sweep has come.
  ghost predicate ActiveIs(ix: Index, s: nat, e: nat, active: set<Key>) {
    s <= |ix.starts| && e <= |ix.ends|
    && KeysOf(ix.ends[..e]) <= KeysOf(ix.starts[..s]) && active == KeysOf(ix.starts[..s]) - KeysOf(ix.ends[..e])
  }

  lemma KeysStep<K>(ms: seq<Mark<K>>, i: nat)
    requires UniqueKeys(ms) && i < |ms|
    ensures KeysOf(ms[..i + 1]) == KeysOf(ms[..i]) + {ms[i].key} && ms[i].key !in KeysOf(ms[..i])
  {
    assert ms[..i + 1] == ms[..i] + [ms[i]];
    assert forall m :: m in ms[..i + 1] <==> m in ms[..i] || m == ms[i];
  }

  lemma KeyPassed<K>(ms: seq<Mark<K>>, i: nat, at: Time, m: Mark<K>)
    requires Passed(ms, i, at) && m in ms && UniqueKeys(ms)
    ensures m.key in KeysOf(ms[..i]) <==> m.at <= at
  {
    var j :| 0 <= j < |ms| && ms[j] == m;
    if j < i { assert ms[..i][j] == m; }
    if m.key in KeysOf(ms[..i]) {
      var x :| x in ms[..i] && x.key == m.key;
      var k :| 0 <= k < i && ms[k] == x;
    }
  }

  /** At a publication's time, exactly the open sessions are active. */
  lemma ActiveMeansOpen(w: Window, asOf: Time, topic: ID, ix: Index, s: nat, e: nat, active: set<Key>, at: Time, key: Key)
    requires Indexed(w, asOf, w.sessions.Keys, w.publications.Keys, topic, ix) && ActiveIs(ix, s, e, active)
    requires Passed(ix.starts, s, at) && Passed(ix.ends, e, at)
    ensures key in active <==> Effective(w, key).Some? && OnTopic(Effective(w, key).value, topic) && Open(Effective(w, key).value, at)
  {
    if key in KeysOf(ix.starts[..s]) {
      var m :| m in ix.starts[..s] && m.key == key;
      assert m in ix.starts;
    }
    if Effective(w, key).Some? && OnTopic(Effective(w, key).value, topic) {
      EffectiveIsSubscribed(w, key);
      hide Effective;
      var v := Effective(w, key).value;
      var m := Mark(key, v.start.at);
      assert Starts(w, topic, m) && m in ix.starts;
      KeyPassed(ix.starts, s, at, m);
      if v.end.Some? {
        assert Ends(w, topic, Mark(key, v.end.value));
        KeyPassed(ix.ends, e, at, Mark(key, v.end.value));
      } else {
        forall x | x in ix.ends[..e] ensures x.key != key {
          assert x in ix.ends && Ends(w, topic, x);
        }
      }
    }
  }

  // A session that ends by `at` has started by then.
  lemma EndedWasStarted(w: Window, asOf: Time, topic: ID, ix: Index, s: nat, at: Time, end: Mark<Key>)
    requires Indexed(w, asOf, w.sessions.Keys, w.publications.Keys, topic, ix) && Passed(ix.starts, s, at)
    requires end in ix.ends && end.at <= at
    ensures end.key in KeysOf(ix.starts[..s])
  {
    assert Ends(w, topic, end);
    EffectiveIsSubscribed(w, end.key);
    var m := Mark(end.key, Effective(w, end.key).value.start.at);
    assert Starts(w, topic, m);
    KeyPassed(ix.starts, s, at, m);
  }

  // Advance both boundary lists to the time of the next publication.
  method AdvanceTo(w: Window, asOf: Time, topic: ID, ix: Index, at: Time, s0: nat, e0: nat, was: set<Key>) returns (s: nat, e: nat, active: set<Key>)
    requires Indexed(w, asOf, w.sessions.Keys, w.publications.Keys, topic, ix) && ActiveIs(ix, s0, e0, was)
    requires Sorted(ix.starts) && Sorted(ix.ends)
    requires (forall j :: 0 <= j < s0 ==> ix.starts[j].at <= at) && (forall j :: 0 <= j < e0 ==> ix.ends[j].at <= at)
    ensures ActiveIs(ix, s, e, active) && Passed(ix.starts, s, at) && Passed(ix.ends, e, at)
  {
    hide Effective, Indexed, KeysOf;
    s, e, active := s0, e0, was;
    IndexedIsUnique(w, asOf, topic, ix);
    while s < |ix.starts| && ix.starts[s].at <= at
      invariant ActiveIs(ix, s, e, active) && forall j :: 0 <= j < s ==> ix.starts[j].at <= at
      decreases |ix.starts| - s
    {
      KeysStep(ix.starts, s);
      active := active + {ix.starts[s].key};
      s := s + 1;
    }
    while e < |ix.ends| && ix.ends[e].at <= at
      invariant ActiveIs(ix, s, e, active) && forall j :: 0 <= j < e ==> ix.ends[j].at <= at
      decreases |ix.ends| - e
    {
      KeysStep(ix.ends, e);
      EndedWasStarted(w, asOf, topic, ix, s, at, ix.ends[e]);
      active := active - {ix.ends[e].key};
      e := e + 1;
    }
  }

  lemma IndexedIsUnique(w: Window, asOf: Time, topic: ID, ix: Index)
    requires Indexed(w, asOf, w.sessions.Keys, w.publications.Keys, topic, ix)
    ensures UniqueKeys(ix.starts) && UniqueKeys(ix.ends)
  {
  }

  ghost function OfMessage(w: Window, asOf: Time, message: MessageKey, keys: set<Key>): set<Pair> {
    set k | k in keys && Candidate(w, asOf, Pair(message, k)) :: Pair(message, k)
  }

  // Judge one publication against the active sessions.
  method Cohort(w: Window, asOf: Time, message: MessageKey, active: set<Key>, before: Counts, ghost pairs: set<Pair>) returns (n: Counts)
    requires Finalized(w, asOf, message) && Totals(w, pairs, before) && Balanced(before)
    requires forall p :: p in pairs ==> p.publication != message
    requires forall k :: k in active <==> Effective(w, k).Some? && OnTopic(Effective(w, k).value, message.topic) && Open(Effective(w, k).value, w.publications[message].at)
    ensures Totals(w, pairs + OfMessage(w, asOf, message, active), n) && Balanced(n)
  {
    hide Effective, Totals, Balanced, Inspect, Add;
    var p := w.publications[message];
    n := before;
    var todo := active;
    ghost var done: set<Key> := {};
    assert pairs + OfMessage(w, asOf, message, {}) == pairs;
    while todo != {}
      invariant todo + done == active && todo !! done
      invariant Totals(w, pairs + OfMessage(w, asOf, message, done), n) && Balanced(n)
      decreases todo
    {
      var key :| key in todo;
      ghost var counted := pairs + OfMessage(w, asOf, message, done);
      if key.node != p.publisher {
        var v := Effective(w, key).value;
        var r := InspectReceipts(ReceiptsOf(w, Pair(message, key)), p, v);
        TotalsStep(w, counted, n, Pair(message, key));
        AddBalances(n, p, v, r);
        n := Add(n, p, v, r);
        assert pairs + OfMessage(w, asOf, message, done + {key}) == counted + {Pair(message, key)};
      } else {
        assert OfMessage(w, asOf, message, done + {key}) == OfMessage(w, asOf, message, done);
      }
      todo, done := todo - {key}, done + {key};
    }
    assert done == active;
  }

  ghost function OfTopic(w: Window, asOf: Time, topic: ID, messages: set<MessageKey>): set<Pair> {
    set p | p in Candidates(w, asOf) && p.publication.topic == topic && p.publication in messages
  }

  /** One topic, publications in order of time. */
  method SweepTopic(w: Window, asOf: Time, topic: ID, unsorted: Index, before: Counts, ghost pairs: set<Pair>) returns (n: Counts)
    requires Indexed(w, asOf, w.sessions.Keys, w.publications.Keys, topic, unsorted)
    requires Totals(w, pairs, before) && Balanced(before) && forall p :: p in pairs ==> p.publication.topic != topic
    ensures Totals(w, pairs + OfTopic(w, asOf, topic, w.publications.Keys), n) && Balanced(n)
  {
    hide Effective, Totals, Balanced, Indexed, KeysOf, Candidate;
    var ix := Index(SortMarks(unsorted.starts), SortMarks(unsorted.ends), SortMarks(unsorted.publications));
    SortedIndex(w, asOf, topic, unsorted, ix);
    var s, e, active := 0, 0, {};
    n := before;
    NothingSwept(w, asOf, topic, ix, pairs);
    for i := 0 to |ix.publications|
      invariant ActiveIs(ix, s, e, active)
      invariant i < |ix.publications| ==> forall j :: 0 <= j < s ==> ix.starts[j].at <= ix.publications[i].at
      invariant i < |ix.publications| ==> forall j :: 0 <= j < e ==> ix.ends[j].at <= ix.publications[i].at
      invariant Totals(w, pairs + OfTopic(w, asOf, topic, KeysOf(ix.publications[..i])), n) && Balanced(n)
    {
      var m := ix.publications[i];
      s, e, active := AdvanceTo(w, asOf, topic, ix, m.at, s, e, active);
      PublicationIsKnown(w, asOf, topic, ix, i);
      forall key ensures key in active <==> Effective(w, key).Some? && OnTopic(Effective(w, key).value, topic) && Open(Effective(w, key).value, m.at) {
        ActiveMeansOpen(w, asOf, topic, ix, s, e, active, m.at, key);
      }
      ghost var swept := OfTopic(w, asOf, topic, KeysOf(ix.publications[..i]));
      KeysStep(ix.publications, i);
      n := Cohort(w, asOf, m.key, active, n, pairs + swept);
      SweepStep(w, asOf, topic, KeysOf(ix.publications[..i]), m.key, active);
      assert pairs + swept + OfMessage(w, asOf, m.key, active) == pairs + OfTopic(w, asOf, topic, KeysOf(ix.publications[..i + 1]));
    }
    EverythingSwept(w, asOf, topic, ix);
  }

  lemma SortedIndex(w: Window, asOf: Time, topic: ID, unsorted: Index, ix: Index)
    requires Indexed(w, asOf, w.sessions.Keys, w.publications.Keys, topic, unsorted)
    requires ix == Index(SortMarks(unsorted.starts), SortMarks(unsorted.ends), SortMarks(unsorted.publications))
    ensures Indexed(w, asOf, w.sessions.Keys, w.publications.Keys, topic, ix)
    ensures Sorted(ix.starts) && Sorted(ix.ends) && Sorted(ix.publications) && UniqueKeys(ix.publications)
  {
    SortMarksIs(unsorted.starts);
    SortMarksIs(unsorted.ends);
    SortMarksIs(unsorted.publications);
  }

  lemma NothingSwept(w: Window, asOf: Time, topic: ID, ix: Index, pairs: set<Pair>)
    ensures ActiveIs(ix, 0, 0, {})
    ensures pairs + OfTopic(w, asOf, topic, KeysOf(ix.publications[..0])) == pairs
  {
  }

  lemma PublicationIsKnown(w: Window, asOf: Time, topic: ID, ix: Index, i: nat)
    requires Indexed(w, asOf, w.sessions.Keys, w.publications.Keys, topic, ix) && i < |ix.publications|
    ensures var m := ix.publications[i];
      Finalized(w, asOf, m.key) && m.key.topic == topic && m.at == w.publications[m.key].at
  {
    assert ix.publications[i] in ix.publications;
  }

  lemma SweepStep(w: Window, asOf: Time, topic: ID, swept: set<MessageKey>, message: MessageKey, active: set<Key>)
    requires Finalized(w, asOf, message) && message.topic == topic && message !in swept
    requires forall k :: k in active <==>
      Effective(w, k).Some? && OnTopic(Effective(w, k).value, topic) && Open(Effective(w, k).value, w.publications[message].at)
    ensures OfTopic(w, asOf, topic, swept + {message}) == OfTopic(w, asOf, topic, swept) + OfMessage(w, asOf, message, active)
  {
    hide Effective;
    forall k | k in active ensures k in w.sessions { EffectiveIsSubscribed(w, k); }
    forall p | p in OfTopic(w, asOf, topic, swept + {message}) ensures p in OfTopic(w, asOf, topic, swept) + OfMessage(w, asOf, message, active) {
      if p.publication == message { assert Candidate(w, asOf, Pair(message, p.session)); }
    }
  }

  lemma EverythingSwept(w: Window, asOf: Time, topic: ID, ix: Index)
    requires Indexed(w, asOf, w.sessions.Keys, w.publications.Keys, topic, ix)
    ensures OfTopic(w, asOf, topic, KeysOf(ix.publications[..|ix.publications|])) == OfTopic(w, asOf, topic, w.publications.Keys)
  {
    hide Effective;
    assert ix.publications[..|ix.publications|] == ix.publications;
    forall p | p in OfTopic(w, asOf, topic, w.publications.Keys) ensures p.publication in KeysOf(ix.publications) {
      var m := Mark(p.publication, w.publications[p.publication].at);
      assert Publishes(w, asOf, topic, m) && m in ix.publications;
    }
    forall p | p in OfTopic(w, asOf, topic, KeysOf(ix.publications)) ensures p in OfTopic(w, asOf, topic, w.publications.Keys) {
    }
  }

  // The pairs of the topics in a set.
  ghost function OfTopics(w: Window, asOf: Time, topics: set<ID>): set<Pair> {
    set p | p in Candidates(w, asOf) && p.publication.topic in topics
  }

  lemma EveryTopicIsIndexed(w: Window, asOf: Time, topics: map<ID, Index>)
    requires AllIndexed(w, asOf, w.sessions.Keys, w.publications.Keys, topics)
    ensures OfTopics(w, asOf, topics.Keys) == Candidates(w, asOf)
  {
    hide Effective;
    forall p | p in Candidates(w, asOf) ensures p.publication.topic in topics {
      var t := p.publication.topic;
      assert Indexed(w, asOf, w.sessions.Keys, w.publications.Keys, t, At(topics, t));
      var m := Mark(p.publication, w.publications[p.publication].at);
      assert Publishes(w, asOf, t, m);
      assert m in At(topics, t).publications;
    }
  }

  lemma NoPairs(w: Window)
    ensures Totals(w, {}, ZERO) && Balanced(ZERO)
  {
    forall c ensures Value(ZERO, c) == Count(w, {}, c) {
      assert (set p | p in {} && Falls(w, p, c)) == {};
    }
    assert Duplicates(w, {}) == 0;
  }

  /** Main result of the sweep: its totals are those over all candidate pairs. */
  method Summarize(w: Window, asOf: Time) returns (n: Counts)
    ensures Totals(w, Candidates(w, asOf), n) && Balanced(n)
    ensures n.eligible == |set p | p in Candidates(w, asOf) && EligiblePair(w, p)|
    ensures n.missed == |set p | p in Candidates(w, asOf) && MissedPair(w, p)|
  {
    hide Effective, Totals, Balanced, Indexed, Candidate, EligiblePair, MissedPair;
    var topics := BuildIndexes(w, asOf);
    EveryTopicIsIndexed(w, asOf, topics);
    NoPairs(w);
    n := ZERO;
    var todo := topics.Keys;
    ghost var done: set<ID> := {};
    assert OfTopics(w, asOf, {}) == {};
    while todo != {}
      invariant todo + done == topics.Keys && todo !! done
      invariant Totals(w, OfTopics(w, asOf, done), n) && Balanced(n)
      decreases todo
    {
      var t :| t in todo;
      assert At(topics, t) == topics[t];
      n := SweepTopic(w, asOf, t, topics[t], n, OfTopics(w, asOf, done));
      assert OfTopics(w, asOf, done) + OfTopic(w, asOf, t, w.publications.Keys) == OfTopics(w, asOf, done + {t}) by {
        TopicPairs(w, asOf, done, t);
      }
      todo, done := todo - {t}, done + {t};
    }
    assert done == topics.Keys;
    SummaryMeans(w, Candidates(w, asOf), n);
  }

  lemma TopicPairs(w: Window, asOf: Time, done: set<ID>, t: ID)
    ensures OfTopics(w, asOf, done) + OfTopic(w, asOf, t, w.publications.Keys) == OfTopics(w, asOf, done + {t})
  {
    hide Effective;
    assert forall p :: p in Candidates(w, asOf) ==> p.publication in w.publications.Keys;
  }
}
