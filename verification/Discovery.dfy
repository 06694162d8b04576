/** Dialling discovered peers: topics with a deficit take turns proposing candidates, dials
    run concurrently within a shared budget, and each pending dial reserves the deficit of
    every topic its peer would serve.
 */
module Discovery {
  import opened Model

  // A candidate that cannot be parsed is None.
  datatype Plan = Plan(candidates: seq<Option<ID>>, needed: nat, next: nat)

  function ConnectionBudget(limit: Option<int>, current: int, required: int): (budget: int)
    ensures 0 <= budget <= MaxInt(required, 0)
    ensures limit.None? || limit.value == 0 ==> budget == MaxInt(required, 0)
    ensures limit.Some? && limit.value != 0 && budget > 0 ==> current + budget <= limit.value
    ensures limit.Some? && limit.value != 0 && budget < required ==> current + budget >= limit.value
  {
    if required <= 0 then 0
    else if limit.None? || limit.value == 0 then required
    else MinInt(required, MaxInt(0, limit.value - current))
  }

  // Topics a peer was proposed for.
  function ProposedFor(plans: seq<Plan>, peer: ID): set<nat> {
    set t: nat | t < |plans| && Some(peer) in plans[t].candidates
  }

  // Everybody proposed for any topic.
  ghost function Peers(plans: seq<Plan>): set<ID> {
    set t: nat, j: nat | t < |plans| && j < |plans[t].candidates| && plans[t].candidates[j].Some? :: plans[t].candidates[j].value
  }

  // The pending dials that reserve topic t.
  ghost function Holding(inFlight: map<ID, set<nat>>, t: nat): set<ID> { set p | p in inFlight && t in inFlight[p] }

  lemma HoldingGrows(inFlight: map<ID, set<nat>>, p: ID, covered: set<nat>, t: nat)
    requires p !in inFlight
    ensures |Holding(inFlight[p := covered], t)| == |Holding(inFlight, t)| + if t in covered then 1 else 0
  {
    var after := inFlight[p := covered];
    assert Holding(after, t) == if t in covered then Holding(inFlight, t) + {p} else Holding(inFlight, t);
  }

  lemma HoldingShrinks(inFlight: map<ID, set<nat>>, p: ID, t: nat)
    requires p in inFlight
    ensures |Holding(inFlight - {p}, t)| == |Holding(inFlight, t)| - if t in inFlight[p] then 1 else 0
  {
    var after := inFlight - {p};
    assert Holding(inFlight, t) == if t in inFlight[p] then Holding(after, t) + {p} else Holding(after, t);
  }

  // The k-th plan from the cursor on.
  function Turn(n: nat, cursor: nat, k: nat): (t: nat)
    requires n > 0
    ensures t < n
  {
    (cursor + k) % n
  }

  lemma TurnIs(n: nat, cursor: nat, k: nat)
    requires cursor < n && k < n
    ensures Turn(n, cursor, k) == if cursor + k < n then cursor + k else cursor + k - n
  {
    var x := cursor + k;
    if x >= n { assert x == 1 * n + (x - n); }
  }

  lemma TurnsDiffer(n: nat, cursor: nat, j: nat, k: nat)
    requires cursor < n && j < n && k < n && j != k
    ensures Turn(n, cursor, j) != Turn(n, cursor, k)
  {
    TurnIs(n, cursor, j);
    TurnIs(n, cursor, k);
  }

  // All plans come up within one turn.
  lemma TurnReaches(n: nat, cursor: nat, t: nat) returns (k: nat)
    requires cursor < n && t < n
    ensures k < n && Turn(n, cursor, k) == t
  {
    k := if t >= cursor then t - cursor else t - cursor + n;
    TurnIs(n, cursor, k);
  }

  // -------------------------------------------------------------- one topic

  ghost predicate Reserved(plans: seq<Plan>, reserved: seq<nat>, inFlight: map<ID, set<nat>>, t: nat) {
    t < |plans| && t < |reserved| && reserved[t] == |Holding(inFlight, t)| && reserved[t] <= plans[t].needed
  }

  ghost predicate Tried(plans: seq<Plan>, attempted: set<ID>, t: nat) {
    t < |plans| && plans[t].next <= |plans[t].candidates|
    && forall j :: 0 <= j < plans[t].next && plans[t].candidates[j].Some? ==> plans[t].candidates[j].value in attempted
  }

  // A topic's deficit shrinks by exactly the successes that serve it.
  ghost predicate Served(plans: seq<Plan>, initial: seq<Plan>, served: map<ID, set<nat>>, t: nat) {
    && t < |plans| && t < |initial| && plans[t].candidates == initial[t].candidates
    && plans[t].needed + |Holding(served, t)| == initial[t].needed
  }

  ghost predicate AllReserved(plans: seq<Plan>, reserved: seq<nat>, inFlight: map<ID, set<nat>>) {
    |reserved| == |plans| && forall t: nat :: t < |plans| ==> Reserved(plans, reserved, inFlight, t)
  }

  ghost predicate AllTried(plans: seq<Plan>, attempted: set<ID>) { forall t: nat :: t < |plans| ==> Tried(plans, attempted, t) }

  ghost predicate AllServed(plans: seq<Plan>, initial: seq<Plan>, served: map<ID, set<nat>>) {
    |plans| == |initial| && forall t: nat :: t < |plans| ==> Served(plans, initial, served, t)
  }

  ghost predicate Unrepeated(dialled: seq<ID>) { forall i, j :: 0 <= i < j < |dialled| ==> dialled[i] != dialled[j] }

  // Every peer is proposed, tried, dialled and finished at most once, in this order.
  ghost predicate Dialling(initial: seq<Plan>, attempted: set<ID>, inFlight: map<ID, set<nat>>, served: map<ID, set<nat>>, dialled: seq<ID>) {
    && attempted <= Peers(initial) && Unrepeated(dialled)
    && (forall p :: p in dialled ==> p in attempted)
    && (forall p :: p in inFlight ==> p in dialled && inFlight[p] != {} && inFlight[p] <= ProposedFor(initial, p))
    && (forall p :: p in served ==> p in dialled && p !in inFlight)
  }

  // Successes and pending dials share the budget.
  ghost predicate Within(successes: nat, served: map<ID, set<nat>>, inFlight: map<ID, set<nat>>, budget: nat) {
    successes == |served| && successes + |inFlight| <= budget
  }

  // Nothing left to propose for this plan now.
  ghost predicate Spent(plans: seq<Plan>, reserved: seq<nat>, t: nat) {
    t < |plans| && t < |reserved| && (plans[t].needed > reserved[t] ==> plans[t].next == |plans[t].candidates|)
  }

  ghost predicate Exhausted(plans: seq<Plan>, reserved: seq<nat>) { forall t: nat :: t < |plans| ==> Spent(plans, reserved, t) }

  // Only the positions moved.
  ghost predicate Moved(was: seq<Plan>, now: seq<Plan>) {
    |was| == |now| && forall t :: 0 <= t < |now| ==> now[t] == was[t].(next := now[t].next) && was[t].next <= now[t].next
  }

  // The candidate that the plan has just been moved past.
  ghost predicate LastExamined(plans: seq<Plan>, t: nat, peer: Option<ID>) {
    t < |plans| && 1 <= plans[t].next <= |plans[t].candidates| && plans[t].candidates[plans[t].next - 1] == peer
  }

  // All topics with an unreserved deficit that have the peer as a candidate.
  ghost predicate EveryDeficit(plans: seq<Plan>, reserved: seq<nat>, peer: Option<ID>, covered: set<nat>) {
    |reserved| == |plans| && forall t: nat :: t in covered <==> t < |plans| && peer in plans[t].candidates && plans[t].needed > reserved[t]
  }

  /** Round robin: the peer is the next one of the first topic from the cursor on that has an
      unreserved deficit and a candidate left, later topics are untouched, and the next turn
      begins behind that topic. */
  ghost predicate InTurn(was: seq<Plan>, now: seq<Plan>, reserved: seq<nat>, start: nat, cursor: nat, peer: Option<ID>, k: nat) {
    && |was| == |now| == |reserved| && k < |now|
    && (var t := (start + k) % |now|;
        LastExamined(now, t, peer) && now[t].needed > reserved[t] && cursor == (t + 1) % |now|)
    && (forall j: nat :: j < k ==> PassedOver(now, reserved, start, j))
    && forall j: nat :: k < j < |now| ==> NotYet(was, now, start, j)
  }

  ghost predicate PassedOver(now: seq<Plan>, reserved: seq<nat>, start: nat, j: nat)
    requires |reserved| == |now| > 0
  {
    var t := (start + j) % |now|; now[t].needed <= reserved[t] || now[t].next == |now[t].candidates|
  }

  ghost predicate NotYet(was: seq<Plan>, now: seq<Plan>, start: nat, j: nat)
    requires |was| == |now| > 0
  {
    now[(start + j) % |now|] == was[(start + j) % |now|]
  }

  lemma TurnIsTaken(was: seq<Plan>, before: seq<Plan>, now: seq<Plan>, reserved: seq<nat>, start: nat, cursor: nat, peer: Option<ID>, k: nat)
    requires |was| == |before| == |now| == |reserved| && k < |now| && start < |now|
    requires var t := Turn(|now|, start, k);
      LastExamined(now, t, peer) && now[t].needed > reserved[t] && cursor == Turn(|now|, t, 1)
      && (forall u :: 0 <= u < |now| && u != t ==> now[u] == before[u])
    requires forall j: nat :: j < k ==> Spent(before, reserved, Turn(|now|, start, j))
    requires forall j: nat :: k <= j < |now| ==> before[Turn(|now|, start, j)] == was[Turn(|now|, start, j)]
    ensures InTurn(was, now, reserved, start, cursor, peer, k)
  {
    var n := |now|;
    forall j: nat | j < n && j != k ensures Turn(n, start, j) != Turn(n, start, k) { TurnIs(n, start, j); TurnIs(n, start, k); }
    forall j: nat | j < k ensures PassedOver(now, reserved, start, j) { assert Spent(before, reserved, Turn(n, start, j)); }
    forall j: nat | k < j < n ensures NotYet(was, now, start, j) { assert before[Turn(n, start, j)] == was[Turn(n, start, j)]; }
  }

  // Every candidate of the topic was dialled, or was connected already when its turn came.
  ghost predicate Finished(plans: seq<Plan>, dialled: seq<ID>, found: set<ID>, t: nat) {
    t < |plans| && forall c :: c in plans[t].candidates && c.Some? ==> c.value in dialled || c.value in found
  }

  // What became of every peer that was tried; one that was just chosen is about to be dialled.
  ghost predicate Accounted(attempted: set<ID>, dialled: seq<ID>, found: set<ID>, chosen: Option<ID>) {
    && (forall p :: p in attempted ==> p in dialled || p in found || chosen == Some(p))
    && (forall p :: p in found ==> p in attempted)
  }

  // A peer counts as connected only if the host said so when it was asked.
  ghost predicate Answered(found: set<ID>, connected: (ID, nat) -> bool, asked: nat) {
    forall p :: p in found ==> exists n: nat :: n < asked && connected(p, n)
  }

  lemma AnsweredLater(found: set<ID>, connected: (ID, nat) -> bool, asked: nat, p: ID)
    requires Answered(found, connected, asked)
    ensures Answered(found, connected, asked + 1) && (connected(p, asked) ==> Answered(found + {p}, connected, asked + 1))
  {
    forall x | x in found ensures exists n: nat :: n < asked + 1 && connected(x, n) {
      var n: nat :| n < asked && connected(x, n);
      assert n < asked + 1;
    }
  }

  lemma MovedKeeps(was: seq<Plan>, now: seq<Plan>, reserved: seq<nat>, inFlight: map<ID, set<nat>>, initial: seq<Plan>, served: map<ID, set<nat>>)
    requires Moved(was, now) && AllReserved(was, reserved, inFlight) && AllServed(was, initial, served)
    ensures AllReserved(now, reserved, inFlight) && AllServed(now, initial, served)
  {
    forall t: nat | t < |now| ensures Reserved(now, reserved, inFlight, t) && Served(now, initial, served, t) {
      assert Reserved(was, reserved, inFlight, t) && Served(was, initial, served, t);
    }
  }

  lemma ExaminedIsTried(was: seq<Plan>, now: seq<Plan>, attempted: set<ID>, more: set<ID>, index: nat)
    requires AllTried(was, attempted) && attempted <= more && index < |was| && was[index].next < |was[index].candidates|
    requires now == was[index := was[index].(next := was[index].next + 1)]
    requires var c := was[index].candidates[was[index].next]; c.Some? ==> c.value in more
    ensures AllTried(now, more) && Moved(was, now)
  {
    forall t: nat | t < |now| ensures Tried(now, more, t) { assert Tried(was, attempted, t); }
  }

  lemma CandidateIsPeer(plans: seq<Plan>, initial: seq<Plan>, served: map<ID, set<nat>>, t: nat, j: nat)
    requires AllServed(plans, initial, served) && t < |plans| && j < |plans[t].candidates| && plans[t].candidates[j].Some?
    ensures plans[t].candidates[j].value in Peers(initial) && t in ProposedFor(plans, plans[t].candidates[j].value)
  {
    assert Served(plans, initial, served, t);
    assert initial[t].candidates[j].Some?;
  }

  lemma ProposedStays(plans: seq<Plan>, initial: seq<Plan>, served: map<ID, set<nat>>, p: ID)
    requires AllServed(plans, initial, served)
    ensures ProposedFor(plans, p) == ProposedFor(initial, p)
  {
    forall t: nat ensures t in ProposedFor(plans, p) <==> t in ProposedFor(initial, p) {
      assert t < |plans| ==> Served(plans, initial, served, t);
    }
  }

  function Reserve(reserved: seq<nat>, covered: set<nat>): (r: seq<nat>)
    ensures |r| == |reserved|
  {
    seq(|reserved|, t requires 0 <= t < |reserved| => reserved[t] + if t in covered then 1 else 0)
  }

  lemma ReserveIs(reserved: seq<nat>, covered: set<nat>)
    ensures GivenBack(Reserve(reserved, covered), reserved, covered)
  {
  }

  lemma ReserveKeeps(plans: seq<Plan>, reserved: seq<nat>, inFlight: map<ID, set<nat>>, p: ID, covered: set<nat>)
    requires AllReserved(plans, reserved, inFlight) && p !in inFlight
    requires forall t :: t in covered ==> t < |plans| && plans[t].needed > reserved[t]
    ensures AllReserved(plans, Reserve(reserved, covered), inFlight[p := covered])
  {
    var more, after := inFlight[p := covered], Reserve(reserved, covered);
    forall t: nat | t < |plans| ensures Reserved(plans, after, more, t) {
      assert Reserved(plans, reserved, inFlight, t);
      HoldingGrows(inFlight, p, covered, t);
    }
  }

  function Release(reserved: seq<nat>, covered: set<nat>): (r: seq<nat>)
    requires forall t :: t in covered && t < |reserved| ==> reserved[t] >= 1
    ensures |r| == |reserved|
  {
    seq(|reserved|, t requires 0 <= t < |reserved| => if t in covered then reserved[t] - 1 else reserved[t])
  }

  lemma ReleaseIs(reserved: seq<nat>, covered: set<nat>)
    requires forall t :: t in covered && t < |reserved| ==> reserved[t] >= 1
    ensures GivenBack(reserved, Release(reserved, covered), covered)
  {
  }

  function Serve(plans: seq<Plan>, covered: set<nat>): (r: seq<Plan>)
    ensures |r| == |plans|
  {
    seq(|plans|, t requires 0 <= t < |plans| =>
      if t in covered && plans[t].needed > 0 then plans[t].(needed := plans[t].needed - 1) else plans[t])
  }

  // One dial's reservations are returned, and what its success serves is needed no more.
  ghost predicate GivenBack(was: seq<nat>, now: seq<nat>, topics: set<nat>) {
    |now| == |was| && forall t :: 0 <= t < |now| ==> now[t] + (if t in topics then 1 else 0) == was[t]
  }

  ghost predicate LessNeeded(was: seq<Plan>, now: seq<Plan>, topics: set<nat>) {
    |now| == |was| && forall t :: 0 <= t < |now| ==>
      now[t].candidates == was[t].candidates && now[t].next == was[t].next && now[t].needed + (if t in topics then 1 else 0) == was[t].needed
  }

  lemma ServeIs(plans: seq<Plan>, covered: set<nat>)
    requires forall t :: t in covered && t < |plans| ==> plans[t].needed >= 1
    ensures LessNeeded(plans, Serve(plans, covered), covered)
  {
  }

  lemma HeldIsReserved(plans: seq<Plan>, reserved: seq<nat>, inFlight: map<ID, set<nat>>, p: ID)
    requires AllReserved(plans, reserved, inFlight) && p in inFlight
    ensures forall t :: t in inFlight[p] && t < |reserved| ==> 1 <= reserved[t] <= plans[t].needed
  {
    forall t | t in inFlight[p] && t < |reserved| ensures 1 <= reserved[t] <= plans[t].needed {
      assert Reserved(plans, reserved, inFlight, t) && p in Holding(inFlight, t);
    }
  }

  lemma ReleaseKeeps(plans: seq<Plan>, reserved: seq<nat>, inFlight: map<ID, set<nat>>, p: ID)
    requires AllReserved(plans, reserved, inFlight) && p in inFlight
    requires forall t :: t in inFlight[p] && t < |reserved| ==> 1 <= reserved[t] <= plans[t].needed
    ensures AllReserved(plans, Release(reserved, inFlight[p]), inFlight - {p})
    ensures AllReserved(Serve(plans, inFlight[p]), Release(reserved, inFlight[p]), inFlight - {p})
  {
    var less, after, now := inFlight - {p}, Release(reserved, inFlight[p]), Serve(plans, inFlight[p]);
    forall t: nat | t < |plans| ensures Reserved(plans, after, less, t) && Reserved(now, after, less, t) {
      assert Reserved(plans, reserved, inFlight, t);
      HoldingShrinks(inFlight, p, t);
    }
  }

  lemma ServeKeeps(plans: seq<Plan>, initial: seq<Plan>, attempted: set<ID>, served: map<ID, set<nat>>, p: ID, covered: set<nat>)
    requires AllServed(plans, initial, served) && AllTried(plans, attempted) && p !in served
    requires forall t :: t in covered && t < |plans| ==> plans[t].needed >= 1
    ensures AllServed(Serve(plans, covered), initial, served[p := covered]) && AllTried(Serve(plans, covered), attempted)
  {
    var more, now := served[p := covered], Serve(plans, covered);
    forall t: nat | t < |plans| ensures Served(now, initial, more, t) {
      assert Served(plans, initial, served, t);
      HoldingGrows(served, p, covered, t);
    }
    forall t: nat | t < |plans| ensures Tried(now, attempted, t) { assert Tried(plans, attempted, t); }
  }

  // ------------------------------------------------------------- the scheduler

  class Scheduler {
    const budget: nat
    ghost const initial: seq<Plan>

    // The host's answer to the n-th question whether a peer is connected.
    const connected: (ID, nat) -> bool
    var asked: nat
    var plans: seq<Plan>
    var reserved: seq<nat>
    var attempted: set<ID>
    var cursor: nat
    var successes: nat
    var inFlight: map<ID, set<nat>>

    // The dials in the order they were started, and what each success served.
    ghost var dialled: seq<ID>
    ghost var served: map<ID, set<nat>>

    // The peers that were connected already.
    ghost var found: set<ID>

    ghost predicate Valid()
      reads this
    {
      Chosen(None)
    }

    ghost predicate Chosen(peer: Option<ID>)
      reads this
    {
      && Sound() && Accounted(attempted, dialled, found, peer) && Answered(found, connected, asked)
      && (peer.Some? ==> peer.value in attempted && peer.value !in dialled)
    }

    ghost predicate Sound()
      reads this
    {
      && (plans != [] ==> cursor < |plans|) && |reserved| == |plans|
      && AllReserved(plans, reserved, inFlight) && AllTried(plans, attempted) && AllServed(plans, initial, served)
      && Dialling(initial, attempted, inFlight, served, dialled)
      && Within(successes, served, inFlight, budget)
    }

    constructor (p: seq<Plan>, b: nat, host: (ID, nat) -> bool)
      requires forall t :: 0 <= t < |p| ==> p[t].next == 0
      ensures Valid() && budget == b && plans == initial == p && successes == 0 && inFlight == map[] && dialled == []
      ensures connected == host
    {
      budget, plans, initial, connected, asked, found := b, p, p, host, 0, {};
      reserved := seq(|p|, i requires 0 <= i < |p| => 0);
      attempted, cursor, successes, inFlight, dialled, served := {}, 0, 0, map[], [], map[];
      new;
      forall t: nat | t < |p| ensures Reserved(plans, reserved, inFlight, t) && Served(plans, initial, served, t) {
        assert Holding(map[], t) == {};
      }
    }

    // Move one plan past its next candidate; a peer that should be dialled is returned.
    method Examine(index: nat) returns (peer: Option<ID>)
      requires Valid() && index < |plans| && plans[index].next < |plans[index].candidates|
      modifies this`plans, this`attempted, this`asked, this`found
      ensures Chosen(peer) && plans == old(plans)[index := old(plans)[index].(next := old(plans)[index].next + 1)]
      ensures old(attempted) <= attempted && Moved(old(plans), plans)
      ensures peer.Some? ==> peer.value !in old(attempted) && peer.value in attempted && index in ProposedFor(plans, peer.value)
      ensures peer.Some? ==> LastExamined(plans, index, peer)
    {
      hide AllReserved, AllTried, AllServed, Peers, Moved, Answered, Accounted, Dialling, Within;
      var candidate := plans[index].candidates[plans[index].next];
      ghost var was, tried := plans, attempted;
      plans := plans[index := plans[index].(next := plans[index].next + 1)];
      peer := None;
      if candidate.Some? && candidate.value !in attempted {
        CandidateIsPeer(was, initial, served, index, was[index].next);
        ProposedMoves(was, plans, index, candidate.value);
        AnsweredLater(found, connected, asked, candidate.value);
        OneMoreTried(initial, attempted, inFlight, served, dialled, found, candidate.value);
        var skip := connected(candidate.value, asked);
        asked, attempted := asked + 1, attempted + {candidate.value};
        if skip { found := found + {candidate.value}; } else { peer := candidate; }
      }
      ExaminedIsTried(was, plans, tried, attempted, index);
      MovedKeeps(was, plans, reserved, inFlight, initial, served);
    }

    // Search one plan for a peer to dial.
    method Search(index: nat) returns (peer: Option<ID>)
      requires Valid() && index < |plans|
      modifies this`plans, this`attempted, this`asked, this`found
      ensures Chosen(peer) && Moved(old(plans), plans) && old(attempted) <= attempted
      ensures peer.Some? ==> peer.value !in old(attempted) && peer.value in attempted && index in ProposedFor(plans, peer.value)
      ensures peer.Some? ==> index < |reserved| && plans[index].needed > reserved[index]
      ensures peer.None? ==> Spent(plans, reserved, index)
      ensures peer.Some? ==> LastExamined(plans, index, peer)
      ensures forall t :: 0 <= t < |plans| && t != index ==> plans[t] == old(plans)[t]
    {
      assert Tried(plans, attempted, index);
      hide AllReserved, AllTried, AllServed, Dialling, ProposedFor, Accounted, Answered;
      peer := None;
      ghost var was := plans;
      assert Moved(was, plans);
      hide Moved, LastExamined;
      if plans[index].needed <= reserved[index] { return; }
      while plans[index].next < |plans[index].candidates| && peer.None?
        invariant Chosen(peer) && Moved(was, plans) && old(attempted) <= attempted
        invariant plans[index].needed > reserved[index] && (peer.Some? ==> LastExamined(plans, index, peer))
        invariant peer.Some? ==> peer.value !in old(attempted) && peer.value in attempted && index in ProposedFor(plans, peer.value)
        invariant forall t :: 0 <= t < |plans| && t != index ==> plans[t] == old(plans)[t]
        invariant plans[index].next <= |plans[index].candidates|
        decreases |plans[index].candidates| - plans[index].next
      {
        ghost var before := plans;
        peer := Examine(index);
        MovedTwice(was, before, plans);
      }
    }

    // Round robin over the plans from the cursor.
    method NextCandidate() returns (peer: Option<ID>, covered: set<nat>)
      requires Valid()
      modifies this`plans, this`attempted, this`cursor, this`asked, this`found
      ensures Chosen(peer) && Moved(old(plans), plans) && old(attempted) <= attempted
      ensures peer.Some? ==> peer.value !in old(attempted) && peer.value in attempted
      ensures peer.Some? ==> covered != {} && covered == Deficits(plans, reserved, peer.value)
      ensures peer.Some? ==> EveryDeficit(plans, reserved, peer, covered)
      ensures peer.Some? ==> exists k :: InTurn(old(plans), plans, reserved, old(cursor), cursor, peer, k)
      ensures peer.None? ==> Exhausted(plans, reserved) && cursor == old(cursor)
    {
      hide AllReserved, AllTried, AllServed, Dialling, Turn, Accounted, Answered, LastExamined, InTurn, EveryDeficit;
      for checked := 0 to |plans|
        invariant Valid() && Moved(old(plans), plans) && old(attempted) <= attempted && cursor == old(cursor)
        invariant forall k: nat :: k < checked ==> Spent(plans, reserved, Turn(|plans|, cursor, k))
        invariant forall k: nat :: checked <= k < |plans| ==> plans[Turn(|plans|, cursor, k)] == old(plans)[Turn(|plans|, cursor, k)]
      {
        var index := Turn(|plans|, cursor, checked);
        ghost var was := plans;
        peer := Search(index);
        if peer.Some? {
          covered := Deficits(plans, reserved, peer.value);
          assert index in covered;
          DeficitsMean(plans, reserved, peer.value);
          TurnIsTaken(old(plans), was, plans, reserved, cursor, Turn(|plans|, index, 1), peer, checked);
          cursor := Turn(|plans|, index, 1);
          return;
        }
        forall k: nat | k < checked ensures Spent(plans, reserved, Turn(|plans|, cursor, k)) {
          assert Spent(was, reserved, Turn(|plans|, cursor, k));
        }
        forall k: nat | checked < k < |plans| ensures plans[Turn(|plans|, cursor, k)] == old(plans)[Turn(|plans|, cursor, k)] {
          TurnsDiffer(|plans|, cursor, checked, k);
        }
      }
      forall t: nat | t < |plans| ensures Spent(plans, reserved, t) {
        var k := TurnReaches(|plans|, cursor, t);
      }
      return None, {};
    }

    // Start one dial, reserving every topic it would serve.
    method Dial(peer: ID, covered: set<nat>)
      requires Chosen(Some(peer))
      requires successes + |inFlight| < budget && covered != {} && covered == Deficits(plans, reserved, peer)
      modifies this`reserved, this`inFlight, this`dialled
      ensures Valid() && inFlight == old(inFlight)[peer := covered] && dialled == old(dialled) + [peer]
      ensures |inFlight| == |old(inFlight)| + 1
      ensures GivenBack(reserved, old(reserved), covered)
    {
      hide AllReserved, AllTried, AllServed, Peers, Answered, Deficits, Reserve, Within, Dialling;
      DialledOnce(initial, attempted, inFlight, served, dialled, peer, covered, plans, reserved);
      DialledSize(successes, served, inFlight, budget, peer, covered);
      DeficitsAre(plans, reserved, peer);
      ReserveKeeps(plans, reserved, inFlight, peer, covered);
      ReserveIs(reserved, covered);
      reserved := Reserve(reserved, covered);
      assert inFlight[peer := covered].Keys == inFlight.Keys + {peer};
      inFlight := inFlight[peer := covered];
      dialled := dialled + [peer];
    }

    // One more dial, if anybody can be proposed.
    method DialNext() returns (started: bool)
      requires Valid() && successes + |inFlight| < budget
      modifies this`plans, this`attempted, this`cursor, this`asked, this`found, this`reserved, this`inFlight, this`dialled
      ensures Valid() && old(attempted) <= attempted && old(dialled) <= dialled
      ensures if started then |inFlight| == |old(inFlight)| + 1 && attempted != old(attempted)
        else Exhausted(plans, reserved) && inFlight == old(inFlight)
    {
      hide AllReserved, AllTried, AllServed, Exhausted, Moved, Dialling, Accounted, Answered;
      var peer, covered := NextCandidate();
      started := peer.Some?;
      if started { Dial(peer.value, covered); }
    }

    /** Start dials until the budget is used up or nobody can be proposed: while the
        scheduler waits, no topic with an unreserved deficit has an untried candidate left,
        unless every slot is taken. */
    method Fill()
      requires Valid()
      modifies this`plans, this`attempted, this`cursor, this`asked, this`found, this`reserved, this`inFlight, this`dialled
      ensures Valid() && (Exhausted(plans, reserved) || successes + |inFlight| == budget)
      ensures old(dialled) <= dialled && old(attempted) <= attempted && (attempted == old(attempted) ==> inFlight == old(inFlight))
    {
      hide AllReserved, AllTried, AllServed, Exhausted, Dialling, Accounted, Answered;
      while |inFlight| < budget - successes
        invariant Valid() && old(dialled) <= dialled && old(attempted) <= attempted
        invariant attempted == old(attempted) ==> inFlight == old(inFlight)
        decreases budget - successes - |inFlight|
      {
        var started := DialNext();
        if !started { return; }
      }
    }

    // A dial ended: its reservations are released.
    method EndDial(peer: ID)
      requires Valid() && peer in inFlight
      modifies this`reserved, this`inFlight
      ensures Valid() && inFlight == old(inFlight) - {peer} && successes + |inFlight| < budget
      ensures AllReserved(Serve(plans, old(inFlight)[peer]), reserved, inFlight)
      ensures peer in dialled && peer !in served
      ensures forall t :: t in old(inFlight)[peer] && t < |plans| ==> plans[t].needed >= 1
      ensures GivenBack(old(reserved), reserved, old(inFlight)[peer])
    {
      hide AllReserved, AllTried, AllServed, Dialling, Release, Serve, Within, Accounted, Answered, GivenBack;
      HeldIsReserved(plans, reserved, inFlight, peer);
      ReleaseKeeps(plans, reserved, inFlight, peer);
      CompletedDial(initial, attempted, inFlight, served, dialled, peer);
      CompletedSize(successes, served, inFlight, budget, peer);
      var topics := inFlight[peer];
      ReleaseIs(reserved, topics);
      reserved := Release(reserved, topics);
      inFlight := inFlight - {peer};
    }

    // A success serves the topics its dial was started for.
    method Succeed(peer: ID, topics: set<nat>)
      requires Valid() && peer in dialled && peer !in served && peer !in inFlight && successes + |inFlight| < budget
      requires forall t :: t in topics && t < |plans| ==> plans[t].needed >= 1
      requires AllReserved(Serve(plans, topics), reserved, inFlight)
      modifies this`plans, this`successes, this`served
      ensures Valid() && successes == old(successes) + 1 && plans == Serve(old(plans), topics)
    {
      hide AllReserved, AllTried, AllServed, Serve, Dialling, Within, Accounted, Answered;
      ServeKeeps(plans, initial, attempted, served, peer, topics);
      ServedDial(initial, attempted, inFlight, served, dialled, peer, topics);
      ServedSize(successes, served, inFlight, budget, peer, topics);
      successes := successes + 1;
      plans := Serve(plans, topics);
      served := served[peer := topics];
    }

    // A dial ended, one way or the other.
    method Complete(peer: ID, connected: bool)
      requires Valid() && peer in inFlight
      modifies this`plans, this`reserved, this`inFlight, this`successes, this`served
      ensures Valid() && inFlight == old(inFlight) - {peer}
      ensures successes == old(successes) + if connected then 1 else 0
      ensures plans == if connected then Serve(old(plans), old(inFlight)[peer]) else old(plans)
      ensures GivenBack(old(reserved), reserved, old(inFlight)[peer])
      ensures if connected then LessNeeded(old(plans), plans, old(inFlight)[peer]) else plans == old(plans)
    {
      hide AllReserved, AllTried, AllServed, Dialling, Serve, Accounted, Answered, GivenBack, LessNeeded;
      var topics := inFlight[peer];
      ghost var was := plans;
      EndDial(peer);
      ServeIs(was, topics);
      if connected { Succeed(peer, topics); }
    }

    /** The scheduler, for any outcomes, completion order and cancellation. If it ends on its
        own with budget left, every candidate of every topic still in deficit was dialled, or
        was connected already when the host was asked. */
    method Run(ended: nat -> bool) returns (canceled: bool)
      requires Valid() && inFlight == map[]
      modifies this
      ensures Valid() && successes <= budget
      ensures canceled ==> exists n :: ended(n)
      ensures !canceled && successes < budget ==>
        inFlight == map[] && forall t: nat :: t < |plans| && plans[t].needed > 0 ==> Finished(plans, dialled, found, t)
    {
      hide AllReserved, AllTried, AllServed, Exhausted, Peers, ProposedFor, Answered, Finished, Accounted, Unrepeated, Serve, GivenBack, LessNeeded;
      canceled := false;
      var waits: nat := 0;
      ghost var left, flying := Peers(initial) - attempted, |inFlight|;
      while successes < budget
        invariant Valid() && !canceled
        invariant left == Peers(initial) - attempted && flying == |inFlight|
        decreases left, flying
      {
        ghost var before := attempted;
        Fill();
        if attempted != before { LessLeft(Peers(initial), before, attempted); }
        if inFlight == map[] {
          EverythingTried(plans, reserved, attempted, dialled, found);
          return;
        }
        canceled := ended(waits);
        if canceled { return; }
        waits := waits + 1;
        var peer :| peer in inFlight;
        var connected: bool := *;
        OneFewer(inFlight, peer);
        Complete(peer, connected);
        left, flying := Peers(initial) - attempted, |inFlight|;
      }
    }
  }

  lemma OneMoreTried(initial: seq<Plan>, attempted: set<ID>, inFlight: map<ID, set<nat>>, served: map<ID, set<nat>>, dialled: seq<ID>,
                     found: set<ID>, p: ID)
    requires Dialling(initial, attempted, inFlight, served, dialled) && p in Peers(initial) && p !in attempted
    requires Accounted(attempted, dialled, found, None)
    ensures p !in dialled && Dialling(initial, attempted + {p}, inFlight, served, dialled)
    ensures Accounted(attempted + {p}, dialled, found, Some(p)) && Accounted(attempted + {p}, dialled, found + {p}, None)
  {
    hide Peers, ProposedFor, Unrepeated;
  }

  lemma ProposedMoves(was: seq<Plan>, now: seq<Plan>, index: nat, p: ID)
    requires index < |was| && now == was[index := was[index].(next := was[index].next + 1)]
    ensures ProposedFor(now, p) == ProposedFor(was, p)
  {
  }

  lemma DialledOnce(initial: seq<Plan>, attempted: set<ID>, inFlight: map<ID, set<nat>>, served: map<ID, set<nat>>, dialled: seq<ID>, p: ID,
                    covered: set<nat>, plans: seq<Plan>, reserved: seq<nat>)
    requires Dialling(initial, attempted, inFlight, served, dialled) && p in attempted && p !in dialled
    requires AllServed(plans, initial, served) && |reserved| == |plans| && covered == Deficits(plans, reserved, p) && covered != {}
    ensures p !in inFlight && Dialling(initial, attempted, inFlight[p := covered], served, dialled + [p])
  {
    hide Peers, AllServed;
    ProposedStays(plans, initial, served, p);
    hide ProposedFor;
  }

  lemma DialledSize(successes: nat, served: map<ID, set<nat>>, inFlight: map<ID, set<nat>>, budget: nat, p: ID, covered: set<nat>)
    requires Within(successes, served, inFlight, budget) && p !in inFlight && successes + |inFlight| < budget
    ensures Within(successes, served, inFlight[p := covered], budget)
  {
    assert inFlight[p := covered].Keys == inFlight.Keys + {p};
  }

  lemma DeficitsAre(plans: seq<Plan>, reserved: seq<nat>, p: ID)
    requires |reserved| == |plans|
    ensures forall t :: t in Deficits(plans, reserved, p) ==> t < |plans| && plans[t].needed > reserved[t]
  {
  }

  lemma CompletedDial(initial: seq<Plan>, attempted: set<ID>, inFlight: map<ID, set<nat>>, served: map<ID, set<nat>>, dialled: seq<ID>, p: ID)
    requires Dialling(initial, attempted, inFlight, served, dialled) && p in inFlight
    ensures p in dialled && p !in served && Dialling(initial, attempted, inFlight - {p}, served, dialled)
  {
    hide Peers, ProposedFor, Unrepeated;
  }

  lemma CompletedSize(successes: nat, served: map<ID, set<nat>>, inFlight: map<ID, set<nat>>, budget: nat, p: ID)
    requires Within(successes, served, inFlight, budget) && p in inFlight
    ensures Within(successes, served, inFlight - {p}, budget) && successes + |inFlight - {p}| < budget
  {
    assert (inFlight - {p}).Keys == inFlight.Keys - {p};
  }

  lemma ServedDial(initial: seq<Plan>, attempted: set<ID>, inFlight: map<ID, set<nat>>, served: map<ID, set<nat>>, dialled: seq<ID>, p: ID, topics: set<nat>)
    requires Dialling(initial, attempted, inFlight, served, dialled) && p in dialled && p !in inFlight
    ensures Dialling(initial, attempted, inFlight, served[p := topics], dialled)
  {
    hide Peers, ProposedFor, Unrepeated;
  }

  lemma ServedSize(successes: nat, served: map<ID, set<nat>>, inFlight: map<ID, set<nat>>, budget: nat, p: ID, topics: set<nat>)
    requires Within(successes, served, inFlight, budget) && p !in served && successes + |inFlight| < budget
    ensures Within(successes + 1, served[p := topics], inFlight, budget)
  {
    assert served[p := topics].Keys == served.Keys + {p};
  }

  lemma MovedTwice(a: seq<Plan>, b: seq<Plan>, c: seq<Plan>)
    requires Moved(a, b) && Moved(b, c)
    ensures Moved(a, c)
  {
  }

  // The topics a dial to this peer would serve.
  function Deficits(plans: seq<Plan>, reserved: seq<nat>, peer: ID): set<nat>
    requires |reserved| == |plans|
  {
    set t | t in ProposedFor(plans, peer) && plans[t].needed > reserved[t]
  }

  lemma DeficitsMean(plans: seq<Plan>, reserved: seq<nat>, peer: ID)
    requires |reserved| == |plans|
    ensures EveryDeficit(plans, reserved, Some(peer), Deficits(plans, reserved, peer))
  {
  }

  lemma LessLeft(peers: set<ID>, before: set<ID>, attempted: set<ID>)
    requires before <= attempted <= peers && attempted != before
    ensures peers - attempted < peers - before
  {
    assert exists p :: p in attempted && p !in before;
  }

  lemma OneFewer<V>(m: map<ID, V>, p: ID)
    requires p in m
    ensures |m - {p}| < |m|
  {
    assert (m - {p}).Keys == m.Keys - {p};
  }

  lemma EverythingTried(plans: seq<Plan>, reserved: seq<nat>, attempted: set<ID>, dialled: seq<ID>, found: set<ID>)
    requires AllReserved(plans, reserved, map[]) && AllTried(plans, attempted) && Exhausted(plans, reserved)
    requires Accounted(attempted, dialled, found, None)
    ensures forall t: nat :: t < |plans| && plans[t].needed > 0 ==> Finished(plans, dialled, found, t)
  {
    forall t: nat | t < |plans| && plans[t].needed > 0 ensures Finished(plans, dialled, found, t) {
      assert Reserved(plans, reserved, map[], t) && Tried(plans, attempted, t) && Spent(plans, reserved, t);
      assert Holding(map[], t) == {};
    }
  }
}
