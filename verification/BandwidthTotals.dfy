/** Run totals from cumulative per-session counters. Samples arrive late, repeated and out
    of order; a newer snapshot replaces an older one, never the other way round.
 */
module BandwidthTotals {
  import opened Model

  newtype int64 = x: int | -0x8000_0000_0000_0000 <= x < 0x8000_0000_0000_0000

  const MAX_INT64: int64 := 0x7FFF_FFFF_FFFF_FFFF

  datatype Protocol = Protocol(name: ID, received: int64, sent: int64)

  datatype Sample = Sample(elapsed: int64, received: int64, sent: int64, protocols: seq<Protocol>, final: bool)

  datatype Event = Event(node: ID, session: ID, at: Time, sample: Option<Sample>)

  datatype Key = Key(node: ID, session: ID)

  datatype Interval = Interval(at: Time, duration: int64, received: int64, sent: int64, protocols: seq<Protocol>)

  datatype Session = Session(at: Time, sample: Sample, interval: Interval)

  // ------------------------------------------------------------- validity

  function ReceivedSum(ps: seq<Protocol>): int { if ps == [] then 0 else ReceivedSum(ps[..|ps| - 1]) + ps[|ps| - 1].received as int }

  function SentSum(ps: seq<Protocol>): int { if ps == [] then 0 else SentSum(ps[..|ps| - 1]) + ps[|ps| - 1].sent as int }

  ghost predicate UniqueNames(ps: seq<Protocol>) { forall i, j :: 0 <= i < j < |ps| ==> ps[i].name != ps[j].name }

  ghost predicate NoneNegative(ps: seq<Protocol>) { forall p :: p in ps ==> p.received >= 0 && p.sent >= 0 }

  /** A usable sample: its protocols are distinct parts of its totals. */
  ghost predicate ValidSample(s: Sample) {
    && s.elapsed > 0 && s.received >= 0 && s.sent >= 0
    && UniqueNames(s.protocols) && NoneNegative(s.protocols)
    && ReceivedSum(s.protocols) <= s.received as int && SentSum(s.protocols) <= s.sent as int
  }

  ghost predicate Valid(e: Event) { e.sample.Some? && e.node != NO_ID && e.session != NO_ID && e.at != 0 && ValidSample(e.sample.value) }

  lemma {:induction false} PartialSums(ps: seq<Protocol>, i: nat)
    requires NoneNegative(ps) && i <= |ps|
    ensures ReceivedSum(ps[..i]) <= ReceivedSum(ps) && SentSum(ps[..i]) <= SentSum(ps)
  {
    if i < |ps| {
      assert ps[..|ps| - 1][..i] == ps[..i] && ps[|ps| - 1] in ps;
      PartialSums(ps[..|ps| - 1], i);
    } else {
      assert ps[..i] == ps;
    }
  }

  // The program subtracts from the totals, so that hostile counters cannot overflow a sum.
  method CheckSample(e: Event) returns (ok: bool)
    ensures ok <==> Valid(e)
  {
    if e.sample.None? || e.node == NO_ID || e.session == NO_ID || e.at == 0 { return false; }
    var s := e.sample.value;
    if s.elapsed <= 0 || s.received < 0 || s.sent < 0 { return false; }
    hide ReceivedSum, SentSum, UniqueNames, NoneNegative;
    var remainingIn, remainingOut := s.received, s.sent;
    var seen: set<ID> := {};
    NoProtocols(s.protocols);
    for i := 0 to |s.protocols|
      invariant UniqueNames(s.protocols[..i]) && NoneNegative(s.protocols[..i]) && seen == NamesOf(s.protocols[..i])
      invariant 0 <= remainingIn && 0 <= remainingOut
      invariant remainingIn as int == s.received as int - ReceivedSum(s.protocols[..i])
      invariant remainingOut as int == s.sent as int - SentSum(s.protocols[..i])
    {
      var p := s.protocols[i];
      ProtocolStep(s.protocols, i);
      if p.name in seen || p.received < 0 || p.sent < 0 || p.received > remainingIn || p.sent > remainingOut {
        if ValidSample(s) { ValidPrefix(s.protocols, i + 1); }
        return false;
      }
      seen := seen + {p.name};
      remainingIn, remainingOut := remainingIn - p.received, remainingOut - p.sent;
    }
    assert s.protocols[..|s.protocols|] == s.protocols;
    ok := true;
  }

  function NamesOf(ps: seq<Protocol>): set<ID> { set p | p in ps :: p.name }

  lemma NoProtocols(ps: seq<Protocol>)
    ensures UniqueNames(ps[..0]) && NoneNegative(ps[..0]) && NamesOf(ps[..0]) == {} && ReceivedSum(ps[..0]) == 0 == SentSum(ps[..0])
  {
  }

  lemma ProtocolStep(ps: seq<Protocol>, i: nat)
    requires i < |ps|
    ensures UniqueNames(ps[..i + 1]) <==> UniqueNames(ps[..i]) && ps[i].name !in NamesOf(ps[..i])
    ensures NoneNegative(ps[..i + 1]) <==> NoneNegative(ps[..i]) && ps[i].received >= 0 && ps[i].sent >= 0
    ensures NamesOf(ps[..i + 1]) == NamesOf(ps[..i]) + {ps[i].name}
    ensures ReceivedSum(ps[..i + 1]) == ReceivedSum(ps[..i]) + ps[i].received as int
    ensures SentSum(ps[..i + 1]) == SentSum(ps[..i]) + ps[i].sent as int
  {
    hide ReceivedSum, SentSum, UniqueNames, NamesOf, NoneNegative;
    assert ps[..i + 1] == ps[..i] + [ps[i]];
    NamesStep(ps[..i], ps[i]);
    SumsStep(ps[..i], ps[i]);
  }

  lemma SumsStep(before: seq<Protocol>, p: Protocol)
    ensures ReceivedSum(before + [p]) == ReceivedSum(before) + p.received as int
    ensures SentSum(before + [p]) == SentSum(before) + p.sent as int
  {
    assert (before + [p])[..|before|] == before;
  }

  lemma NamesStep(before: seq<Protocol>, p: Protocol)
    ensures UniqueNames(before + [p]) <==> UniqueNames(before) && p.name !in NamesOf(before)
    ensures NamesOf(before + [p]) == NamesOf(before) + {p.name}
    ensures NoneNegative(before + [p]) <==> NoneNegative(before) && p.received >= 0 && p.sent >= 0
  {
    var after := before + [p];
    assert forall x :: x in after <==> x in before || x == p;
    assert forall j :: 0 <= j < |before| ==> after[j] == before[j] && before[j] in before;
    if UniqueNames(after) {
      forall x | x in before ensures x.name != p.name {
        var j :| 0 <= j < |before| && before[j] == x;
        assert after[j].name != after[|before|].name;
      }
    }
  }

  lemma ValidPrefix(ps: seq<Protocol>, i: nat)
    requires UniqueNames(ps) && NoneNegative(ps) && i <= |ps|
    ensures UniqueNames(ps[..i]) && NoneNegative(ps[..i]) && ReceivedSum(ps[..i]) <= ReceivedSum(ps) && SentSum(ps[..i]) <= SentSum(ps)
  {
    PartialSums(ps, i);
  }

  // -------------------------------------------------------------- growth

  function Find(ps: seq<Protocol>, name: ID): Option<Protocol> {
    if ps == [] then None else if ps[0].name == name then Some(ps[0]) else Find(ps[1..], name)
  }

  lemma {:induction false} FindIs(ps: seq<Protocol>, name: ID)
    ensures Find(ps, name).Some? ==> Find(ps, name).value in ps && Find(ps, name).value.name == name
    ensures Find(ps, name).None? <==> forall p :: p in ps ==> p.name != name
  {
    if ps != [] {
      assert ps == [ps[0]] + ps[1..];
      FindIs(ps[1..], name);
    }
  }

  lemma {:induction false} FindUnique(ps: seq<Protocol>, p: Protocol)
    requires UniqueNames(ps) && p in ps
    ensures Find(ps, p.name) == Some(p)
  {
    if ps[0] != p {
      var i :| 0 <= i < |ps| && ps[i] == p;
      assert ps[1..][i - 1] == p;
      FindUnique(ps[1..], p);
    }
  }

  ghost predicate Continues(p: Protocol, now: seq<Protocol>) {
    var q := Find(now, p.name);
    q.Some? && p.received <= q.value.received && p.sent <= q.value.sent
  }

  // Counters never shrink, and no protocol disappears.
  ghost predicate Grows(was: Sample, now: Sample) {
    was.received <= now.received && was.sent <= now.sent && forall p :: p in was.protocols ==> Continues(p, now.protocols)
  }

  // A protocol's growth since an older snapshot; one that is new counts from zero.
  // Per protocol, what was added since the previous sample.
  ghost predicate Grown(was: seq<Protocol>, now: seq<Protocol>, ps: seq<Protocol>) {
    |ps| == |now| && forall j :: 0 <= j < |now| ==>
      ps[j].name == now[j].name && (ps[j].received as int, ps[j].sent as int) == Growth(was, now[j])
  }

  function Growth(was: seq<Protocol>, p: Protocol): (int, int) {
    var b := Find(was, p.name);
    if b.Some? then (p.received as int - b.value.received as int, p.sent as int - b.value.sent as int) else (p.received as int, p.sent as int)
  }

  const NOTHING: Sample := Sample(0, 0, 0, [], false)

  function Before(m: map<Key, Session>, key: Key): Sample { if key in m then m[key].sample else NOTHING }

  // ------------------------------------------------------------- the totals

  ghost function SumOver(keys: set<Key>, f: Key -> int): int {
    if keys == {} then 0 else var k :| k in keys; f(k) + SumOver(keys - {k}, f)
  }

  lemma {:induction false} SumWithout(keys: set<Key>, k: Key, f: Key -> int)
    requires k in keys
    ensures SumOver(keys, f) == f(k) + SumOver(keys - {k}, f)
  {
    var x :| x in keys && SumOver(keys, f) == f(x) + SumOver(keys - {x}, f);
    if x != k {
      SumWithout(keys - {x}, k, f);
      SumWithout(keys - {k}, x, f);
      assert keys - {x} - {k} == keys - {k} - {x};
    }
  }

  lemma {:induction false} SumAgrees(keys: set<Key>, f: Key -> int, g: Key -> int)
    requires forall k :: k in keys ==> f(k) == g(k)
    ensures SumOver(keys, f) == SumOver(keys, g)
  {
    if keys != {} {
      var k :| k in keys;
      SumWithout(keys, k, f);
      SumWithout(keys, k, g);
      SumAgrees(keys - {k}, f, g);
    }
  }

  lemma {:induction false} SumOrder(keys: set<Key>, more: set<Key>, f: Key -> int, g: Key -> int)
    requires keys <= more && (forall k :: k in keys ==> f(k) <= g(k)) && forall k :: k in more ==> 0 <= g(k)
    ensures SumOver(keys, f) <= SumOver(more, g)
    decreases more
  {
    if more != {} {
      var k :| k in more;
      SumWithout(more, k, g);
      if k in keys { SumWithout(keys, k, f); }
      SumOrder(keys - {k}, more - {k}, f, g);
      assert k !in keys ==> keys - {k} == keys;
    }
  }

  // The sums of the latest samples of all sessions.
  ghost function TotalReceived(m: map<Key, Sample>): int { SumOver(m.Keys, (k: Key) => if k in m then m[k].received as int else 0) }

  ghost function TotalSent(m: map<Key, Sample>): int { SumOver(m.Keys, (k: Key) => if k in m then m[k].sent as int else 0) }

  function Latest(m: map<Key, Session>): map<Key, Sample> { map k | k in m :: m[k].sample }

  lemma TotalsStep(m: map<Key, Sample>, key: Key, s: Sample)
    ensures TotalReceived(m[key := s]) == TotalReceived(m) - (if key in m then m[key].received as int else 0) + s.received as int
    ensures TotalSent(m[key := s]) == TotalSent(m) - (if key in m then m[key].sent as int else 0) + s.sent as int
  {
    var n := m[key := s];
    var rm, rn := (k: Key) => if k in m then m[k].received as int else 0, (k: Key) => if k in n then n[k].received as int else 0;
    var sm, sn := (k: Key) => if k in m then m[k].sent as int else 0, (k: Key) => if k in n then n[k].sent as int else 0;
    SumWithout(n.Keys, key, rn);
    SumWithout(n.Keys, key, sn);
    if key in m { SumWithout(m.Keys, key, rm); SumWithout(m.Keys, key, sm); }
    assert n.Keys - {key} == m.Keys - {key};
    SumAgrees(m.Keys - {key}, rm, rn);
    SumAgrees(m.Keys - {key}, sm, sn);
    assert key !in m ==> m.Keys - {key} == m.Keys;
  }

  datatype Outcome = Rejected | Superseded | Accepted(interval: Interval)

  // Which samples are accepted, in the order the program decides.
  ghost predicate Acceptable(m: map<Key, Session>, e: Event, received: int64, sent: int64) {
    && Valid(e)
    && var was, s := Before(m, Key(e.node, e.session)), e.sample.value;
    && was.elapsed < s.elapsed && !was.final && Grows(was, s)
    && received as int + s.received as int - was.received as int <= MAX_INT64 as int
    && sent as int + s.sent as int - was.sent as int <= MAX_INT64 as int
  }

  class Accumulator {
    var sessions: map<Key, Session>
    var received: int64
    var sent: int64
    var samples: nat
    var rejected: nat
    var superseded: nat

    // The totals are exactly the sums of the latest accepted samples.
    ghost predicate Exact()
      reads this
    {
      && received as int == TotalReceived(Latest(sessions)) && sent as int == TotalSent(Latest(sessions))
      && received >= 0 && sent >= 0
      && forall k :: k in sessions ==> ValidSample(sessions[k].sample)
    }

    constructor ()
      ensures Exact() && sessions == map[]
    {
      sessions, received, sent, samples, rejected, superseded := map[], 0, 0, 0, 0, 0;
      new;
      assert Latest(sessions) == map[];
    }

    // The growth of every protocol, unless one shrank or disappeared.
    method Deltas(was: seq<Protocol>, now: seq<Protocol>) returns (ps: seq<Protocol>, ok: bool)
      requires UniqueNames(was) && NoneNegative(was) && UniqueNames(now) && NoneNegative(now)
      ensures ok <==> forall p :: p in was ==> Continues(p, now)
      ensures ok ==> Grown(was, now, ps)
    {
      ps := [];
      var missing := set p | p in was :: p.name;
      for i := 0 to |now|
        invariant forall n :: n in missing <==> (exists p :: p in was && p.name == n) && !exists j :: 0 <= j < i && now[j].name == n
        invariant forall p :: p in was && p.name !in missing ==> Continues(p, now)
        invariant |ps| == i && forall j :: 0 <= j < i ==>
          ps[j].name == now[j].name && (ps[j].received as int, ps[j].sent as int) == Growth(was, now[j])
      {
        var p := now[i];
        assert p in now;
        FindUnique(now, p);
        FindIs(was, p.name);
        var found := Find(was, p.name);
        var before := if found.Some? then found.value else Protocol(p.name, 0, 0);
        if p.received < before.received || p.sent < before.sent {
          assert before in was && !Continues(before, now);
          return ps, false;
        }
        if found.Some? {
          forall b | b in was && b.name == p.name ensures b == before { FindUnique(was, b); }
        }
        ps := ps + [Protocol(p.name, p.received - before.received, p.sent - before.sent)];
        missing := missing - {p.name};
      }
      ok := missing == {};
      if !ok {
        var n :| n in missing;
        var p :| p in was && p.name == n;
        FindIs(now, n);
        assert !Continues(p, now);
      }
    }

    /** One sample: superseded by a newer one, rejected, or accounted for by its growth. */
    method Observe(e: Event) returns (outcome: Outcome)
      requires Exact()
      modifies this
      ensures Exact()
      ensures outcome.Accepted? <==> Acceptable(old(sessions), e, old(received), old(sent))
      ensures outcome.Superseded? <==>
        Valid(e) && Key(e.node, e.session) in old(sessions) && e.sample.value.elapsed <= old(sessions)[Key(e.node, e.session)].sample.elapsed
      ensures if outcome.Accepted? then sessions == old(sessions)[Key(e.node, e.session) := Session(e.at, e.sample.value, outcome.interval)]
        else sessions == old(sessions) && received == old(received) && sent == old(sent)
      ensures outcome.Accepted? ==>
        (var was, now := Before(old(sessions), Key(e.node, e.session)), e.sample.value;
         && outcome.interval.at == e.at && outcome.interval.duration == now.elapsed - was.elapsed > 0
         && outcome.interval.received == now.received - was.received && outcome.interval.sent == now.sent - was.sent
         && Grown(was.protocols, now.protocols, outcome.interval.protocols))
      ensures samples == old(samples) + (if outcome.Accepted? then 1 else 0)
      ensures superseded == old(superseded) + (if outcome.Superseded? then 1 else 0)
      ensures rejected == old(rejected) + (if outcome.Rejected? then 1 else 0)
    {
      hide TotalReceived, TotalSent, Grown;
      outcome := Rejected;
      var usable := CheckSample(e);
      if !usable { rejected := rejected + 1; return; }
      var key, s := Key(e.node, e.session), e.sample.value;
      var was := Before(sessions, key);
      if key in sessions && s.elapsed <= was.elapsed { superseded := superseded + 1; return Superseded; }
      if key in sessions && (was.final || s.received < was.received || s.sent < was.sent) { rejected := rejected + 1; return; }
      var moreIn, moreOut := s.received - was.received, s.sent - was.sent;
      if moreIn > MAX_INT64 - received || moreOut > MAX_INT64 - sent { rejected := rejected + 1; return; }
      var ps, grown := Deltas(was.protocols, s.protocols);
      if !grown { rejected := rejected + 1; return; }
      var interval := Interval(e.at, s.elapsed - was.elapsed, moreIn, moreOut, ps);
      Install(key, Session(e.at, s, interval));
      outcome := Accepted(interval);
    }

    // Replace a session's snapshot and move the totals by its growth.
    method Install(key: Key, session: Session)
      requires Exact() && ValidSample(session.sample)
      requires var was := Before(sessions, key);
        && 0 <= session.sample.received as int - was.received as int <= MAX_INT64 as int - received as int
        && 0 <= session.sample.sent as int - was.sent as int <= MAX_INT64 as int - sent as int
      modifies this`sessions, this`received, this`sent, this`samples
      ensures Exact() && sessions == old(sessions)[key := session] && samples == old(samples) + 1
    {
      hide TotalReceived, TotalSent, ValidSample;
      var was := Before(sessions, key);
      TotalsStep(Latest(sessions), key, session.sample);
      assert Latest(sessions[key := session]) == Latest(sessions)[key := session.sample];
      sessions := sessions[key := session];
      received, sent := received + (session.sample.received - was.received), sent + (session.sample.sent - was.sent);
      samples := samples + 1;
    }
  }

  // ------------------------------------------------------ order of arrival

  function KeyOf(e: Event): Key { Key(e.node, e.session) }

  // The samples of each session are snapshots of growing counters, and only the last may be final.
  ghost predicate Growing(events: set<Event>) {
    && (forall e :: e in events ==> Valid(e))
    && forall e, f :: e in events && f in events && KeyOf(e) == KeyOf(f) ==> Ordered(e.sample.value, f.sample.value)
  }

  ghost predicate Ordered(a: Sample, b: Sample) {
    && (a.elapsed == b.elapsed ==> a == b)
    && (a.elapsed < b.elapsed ==> Grows(a, b) && !a.final)
  }

  // The newest snapshot of every session.
  ghost predicate Newest(events: set<Event>, m: map<Key, Sample>) {
    && (forall e :: e in events ==> e.sample.Some? && KeyOf(e) in m && e.sample.value.elapsed <= m[KeyOf(e)].elapsed)
    && forall k :: k in m ==> exists e :: e in events && KeyOf(e) == k && e.sample == Some(m[k])
  }

  ghost predicate Fits(m: map<Key, Sample>) { TotalReceived(m) <= MAX_INT64 as int && TotalSent(m) <= MAX_INT64 as int }

  function SetOf(arrivals: seq<Event>): set<Event> { set e | e in arrivals }

  // Totals of part of the samples stay below the grand total.
  lemma PartialTotals(part: set<Event>, events: set<Event>, p: map<Key, Sample>, m: map<Key, Sample>)
    requires Growing(events) && part <= events && Newest(part, p) && Newest(events, m)
    ensures TotalReceived(p) <= TotalReceived(m) && TotalSent(p) <= TotalSent(m)
  {
    forall k | k in m ensures 0 <= m[k].received && 0 <= m[k].sent {
      var e :| e in events && KeyOf(e) == k && e.sample == Some(m[k]);
    }
    forall k | k in p ensures k in m && p[k].received <= m[k].received && p[k].sent <= m[k].sent {
      PartialSample(part, events, p, m, k);
    }
    hide Growing, Newest;
    SumOrder(p.Keys, m.Keys, (k: Key) => if k in p then p[k].received as int else 0, (k: Key) => if k in m then m[k].received as int else 0);
    SumOrder(p.Keys, m.Keys, (k: Key) => if k in p then p[k].sent as int else 0, (k: Key) => if k in m then m[k].sent as int else 0);
  }

  lemma PartialSample(part: set<Event>, events: set<Event>, p: map<Key, Sample>, m: map<Key, Sample>, k: Key)
    requires Growing(events) && part <= events && Newest(part, p) && Newest(events, m) && k in p
    ensures k in m && p[k].received <= m[k].received && p[k].sent <= m[k].sent
  {
    hide ValidSample;
    var e :| e in part && KeyOf(e) == k && e.sample == Some(p[k]);
    var f :| f in events && KeyOf(f) == k && f.sample == Some(m[k]);
    assert e in events;
    assert Ordered(e.sample.value, f.sample.value) && Ordered(f.sample.value, e.sample.value);
  }

  // One more arrival: accepted exactly when it is newer than what is known of its session.
  lemma ArrivalIsNewest(seen: set<Event>, events: set<Event>, sessions: map<Key, Session>, m: map<Key, Sample>, e: Event, received: int64, sent: int64)
    requires Growing(events) && seen <= events && e in events && Newest(events, m) && Fits(m) && Newest(seen, Latest(sessions))
    requires received as int == TotalReceived(Latest(sessions)) && sent as int == TotalSent(Latest(sessions))
    ensures e.sample.Some?
    ensures var newer := KeyOf(e) !in sessions || sessions[KeyOf(e)].sample.elapsed < e.sample.value.elapsed;
      && (Acceptable(sessions, e, received, sent) <==> newer)
      && Newest(seen + {e}, if newer then Latest(sessions)[KeyOf(e) := e.sample.value] else Latest(sessions))
  {
    hide TotalReceived, TotalSent, ValidSample, Grows;
    var key, s, p := KeyOf(e), e.sample.value, Latest(sessions);
    var newer := key !in sessions || sessions[key].sample.elapsed < s.elapsed;
    var q := if newer then p[key := s] else p;
    if key in sessions {
      var x :| x in seen && KeyOf(x) == key && x.sample == Some(p[key]);
      assert Ordered(x.sample.value, s) && Ordered(s, x.sample.value);
    }
    assert Newest(seen + {e}, q) by { NewestStep(seen, p, e); }
    if newer {
      PartialTotals(seen + {e}, events, q, m);
      TotalsStep(p, key, s);
      FirstGrows(s, e);
    }
  }

  lemma FirstGrows(s: Sample, e: Event)
    requires e.sample == Some(s) && Valid(e)
    ensures Grows(NOTHING, s) && NOTHING.elapsed < s.elapsed && !NOTHING.final
  {
  }

  lemma NewestStep(seen: set<Event>, p: map<Key, Sample>, e: Event)
    requires Newest(seen, p) && e.sample.Some?
    ensures Newest(seen + {e}, if KeyOf(e) !in p || p[KeyOf(e)].elapsed < e.sample.value.elapsed then p[KeyOf(e) := e.sample.value] else p)
  {
    var q := if KeyOf(e) !in p || p[KeyOf(e)].elapsed < e.sample.value.elapsed then p[KeyOf(e) := e.sample.value] else p;
    forall k | k in q ensures exists x :: x in seen + {e} && KeyOf(x) == k && x.sample == Some(q[k]) {
      if k in p && q[k] == p[k] {
        var x :| x in seen && KeyOf(x) == k && x.sample == Some(p[k]);
        assert x in seen + {e};
      } else {
        assert e in seen + {e};
      }
    }
  }

  /** For growing counters whose grand total fits, every order and repetition of the same
      samples ends with the newest snapshot of each session, hence with the same totals. */
  method ObserveAll(arrivals: seq<Event>, ghost m: map<Key, Sample>) returns (received: int64, sent: int64)
    requires Growing(SetOf(arrivals)) && Newest(SetOf(arrivals), m) && Fits(m)
    ensures received as int == TotalReceived(m) && sent as int == TotalSent(m)
  {
    hide TotalReceived, TotalSent, Growing, Newest, Fits, Acceptable, ValidSample;
    var a := new Accumulator();
    NothingIsNewest();
    assert Latest(a.sessions) == map[] && SetOf(arrivals[..0]) == {};
    for i := 0 to |arrivals|
      invariant fresh(a) && a.Exact() && Newest(SetOf(arrivals[..i]), Latest(a.sessions))
    {
      var e := arrivals[i];
      assert SetOf(arrivals[..i + 1]) == SetOf(arrivals[..i]) + {e} by { assert arrivals[..i + 1] == arrivals[..i] + [e]; }
      ArrivalIsNewest(SetOf(arrivals[..i]), SetOf(arrivals), a.sessions, m, e, a.received, a.sent);
      ghost var before := a.sessions;
      var outcome := a.Observe(e);
      if outcome.Accepted? { assert Latest(a.sessions) == Latest(before)[KeyOf(e) := e.sample.value]; }
    }
    assert arrivals[..|arrivals|] == arrivals;
    NewestIsUnique(SetOf(arrivals), Latest(a.sessions), m);
    received, sent := a.received, a.sent;
  }

  lemma NothingIsNewest()
    ensures Newest({}, map[])
  {
  }

  lemma NewestIsUnique(events: set<Event>, p: map<Key, Sample>, m: map<Key, Sample>)
    requires Growing(events) && Newest(events, p) && Newest(events, m)
    ensures p == m
  {
    hide Valid, Grows;
    forall k ensures k in p <==> k in m { }
    forall k | k in p ensures p[k] == m[k] {
      var e :| e in events && KeyOf(e) == k && e.sample == Some(p[k]);
      var f :| f in events && KeyOf(f) == k && f.sample == Some(m[k]);
      assert Ordered(e.sample.value, f.sample.value);
    }
  }
}
