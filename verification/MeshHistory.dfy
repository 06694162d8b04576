/** The gossip mesh and the topic membership of a run, rebuilt from its graph events. The
    program sorts the events and replays them over sets of edges and open lives. What it
    finds is stated without an order of replay: by which events there are and at what times.
 */
module MeshHistory {
  import opened Model

  // In the order in which the program sorts events of one time.
  datatype Kind = Graft | Join | Leave | Stop | Terminated | Prune

  datatype Event = Event(at: Time, kind: Kind, node: ID, peer: ID, remote: ID, topic: ID)

  datatype Edge = Edge(from: ID, to: ID)

  // The node behind each peer name.
  type Peers = map<ID, ID>

  function Rank(k: Kind): nat {
    match k
    case Graft => 0
    case Join => 1
    case Leave => 2
    case Stop => 3
    case Terminated => 4
    case Prune => 5
  }

  predicate Before(a: Event, b: Event) { a.at < b.at || (a.at == b.at && Rank(a.kind) < Rank(b.kind)) }

  ghost predicate Sorted(log: seq<Event>) { forall i, j :: 0 <= i < j < |log| ==> !Before(log[j], log[i]) }

  // Events without a node or a time are not recorded.
  ghost predicate Recorded(log: seq<Event>) { forall e :: e in log ==> e.node != NO_ID && e.at != 0 }

  // ------------------------------------------------------------ the mesh

  function EdgeOf(e: Event): Edge { Edge(e.peer, e.remote) }

  function Reverse(x: Edge): Edge { Edge(x.to, x.from) }

  predicate Proper(x: Edge) { x.from != NO_ID && x.to != NO_ID && x.from != x.to }

  function NodeOf(peers: Peers, p: ID): ID { if p in peers then peers[p] else NO_ID }

  predicate Touches(peers: Peers, x: Edge, node: ID) { NodeOf(peers, x.from) == node || NodeOf(peers, x.to) == node }

  predicate Grafts(e: Event, topic: ID, x: Edge) { e.kind.Graft? && e.topic == topic && EdgeOf(e) == x && Proper(x) }

  predicate Prunes(e: Event, topic: ID, x: Edge) {
    e.kind.Prune? && e.topic == topic && (EdgeOf(e) == x || EdgeOf(e) == Reverse(x)) && Proper(x)
  }

  predicate Departs(e: Event, topic: ID) { (e.kind.Leave? && e.topic == topic) || e.kind.Stop? || e.kind.Terminated? }

  predicate Clears(peers: Peers, e: Event, topic: ID, x: Edge) {
    Prunes(e, topic, x) || (Departs(e, topic) && Touches(peers, x, e.node))
  }

  /** One side asked for the link, and nothing at that time or later took it back. */
  ghost predicate Requested(peers: Peers, events: set<Event>, topic: ID, x: Edge) {
    exists g :: g in events && Grafts(g, topic, x) && forall c :: c in events && Clears(peers, c, topic, x) ==> c.at < g.at
  }

  /** A link of the mesh: both sides asked. */
  ghost predicate Linked(peers: Peers, events: set<Event>, topic: ID, x: Edge) {
    Requested(peers, events, topic, x) && Requested(peers, events, topic, Reverse(x))
  }

  function SetOf(log: seq<Event>): set<Event> { set e | e in log }

  // Nothing among the events comes after e in the sorted log.
  ghost predicate Latest(events: set<Event>, e: Event) {
    forall x :: x in events ==> x.at <= e.at && (x.at == e.at ==> Rank(x.kind) <= Rank(e.kind))
  }

  lemma NextIsLatest(log: seq<Event>, i: nat)
    requires Sorted(log) && i < |log|
    ensures Latest(SetOf(log[..i]), log[i]) && SetOf(log[..i + 1]) == SetOf(log[..i]) + {log[i]}
  {
    forall x | x in log[..i] ensures !Before(log[i], x) {
      var j :| 0 <= j < i && log[j] == x;
    }
    assert log[..i + 1] == log[..i] + [log[i]];
  }

  // One more event of the sorted log.
  lemma RequestStep(peers: Peers, events: set<Event>, e: Event, topic: ID, x: Edge)
    requires Latest(events, e)
    ensures Requested(peers, events + {e}, topic, x) <==>
      Grafts(e, topic, x) || (Requested(peers, events, topic, x) && !Clears(peers, e, topic, x))
  {
    hide Touches, Proper;
    if Requested(peers, events, topic, x) && !Clears(peers, e, topic, x) {
      var g :| g in events && Grafts(g, topic, x) && forall c :: c in events && Clears(peers, c, topic, x) ==> c.at < g.at;
      assert g in events + {e};
    }
    if Grafts(e, topic, x) { assert e in events + {e}; }
  }

  lemma ClearsBoth(peers: Peers, e: Event, topic: ID, x: Edge)
    ensures Clears(peers, e, topic, Reverse(x)) <==> Clears(peers, e, topic, x)
  {
  }

  // ------------------------------------------------------- sets of edges

  type Edges = map<ID, set<Edge>>

  function At(m: Edges, topic: ID): set<Edge> { if topic in m then m[topic] else {} }

  ghost predicate Holds(peers: Peers, events: set<Event>, pending: Edges, confirmed: Edges) {
    && pending.Keys == confirmed.Keys
    && (forall topic, x :: x in At(pending, topic) <==> Requested(peers, events, topic, x))
    && (forall topic, x :: x in At(confirmed, topic) <==> Linked(peers, events, topic, x))
  }

  // The edges of one topic that a departure leaves.
  function Staying(peers: Peers, e: Event, topic: ID, edges: set<Edge>): set<Edge> {
    if Departs(e, topic) then set x | x in edges && !Touches(peers, x, e.node) else edges
  }

  lemma NothingStays(peers: Peers, e: Event, topic: ID, edges: set<Edge>)
    ensures Staying(peers, e, topic, {}) == {}
    ensures !Departs(e, topic) ==> Staying(peers, e, topic, edges) == edges
  {
  }

  // A departure removes every edge of the node from a topic.
  method RemoveTouching(peers: Peers, e: Event, topic: ID, edges: set<Edge>, links: set<Edge>) returns (left: set<Edge>, kept: set<Edge>)
    requires Departs(e, topic) && forall x :: x in links ==> x in edges && Reverse(x) in links
    ensures left == Staying(peers, e, topic, edges) && kept == Staying(peers, e, topic, links)
  {
    left, kept := edges, links;
    var todo := edges;
    while todo != {}
      invariant todo <= left <= edges && kept <= links
      invariant forall x :: x in edges && x !in todo ==> (x in left <==> !Touches(peers, x, e.node))
      invariant forall x :: x in links && x !in kept ==> Touches(peers, x, e.node)
      invariant forall x :: x in kept && x !in todo ==> !Touches(peers, x, e.node)
      decreases todo
    {
      var x :| x in todo;
      if Touches(peers, x, e.node) { left, kept := left - {x}, kept - {x} - {Reverse(x)}; }
      todo := todo - {x};
    }
  }

  method Depart(peers: Peers, e: Event, pending: Edges, confirmed: Edges) returns (left: Edges, kept: Edges)
    requires pending.Keys == confirmed.Keys
    requires forall topic, x :: x in At(confirmed, topic) ==> x in At(pending, topic) && Reverse(x) in At(confirmed, topic)
    ensures left.Keys == kept.Keys == pending.Keys
    ensures forall topic :: At(left, topic) == Staying(peers, e, topic, At(pending, topic))
    ensures forall topic :: At(kept, topic) == Staying(peers, e, topic, At(confirmed, topic))
  {
    hide Staying, Departs;
    left, kept := pending, confirmed;
    var todo := pending.Keys;
    while todo != {}
      invariant todo <= pending.Keys == left.Keys == kept.Keys
      invariant forall t :: t in todo ==> left[t] == pending[t] && kept[t] == confirmed[t]
      invariant forall t :: t in pending && t !in todo ==>
        left[t] == Staying(peers, e, t, pending[t]) && kept[t] == Staying(peers, e, t, confirmed[t])
      decreases todo
    {
      var t :| t in todo;
      todo := todo - {t};
      assert At(pending, t) == pending[t] && At(confirmed, t) == confirmed[t];
      NothingStays(peers, e, t, pending[t]);
      NothingStays(peers, e, t, confirmed[t]);
      if Departs(e, t) {
        var edges, links := RemoveTouching(peers, e, t, pending[t], confirmed[t]);
        left, kept := left[t := edges], kept[t := links];
      }
    }
    forall t ensures At(left, t) == Staying(peers, e, t, At(pending, t)) && At(kept, t) == Staying(peers, e, t, At(confirmed, t)) {
      NothingStays(peers, e, t, {});
    }
  }

  // ----------------------------------------------------------- one graft event

  lemma DepartureHolds(peers: Peers, events: set<Event>, e: Event, pending: Edges, confirmed: Edges, left: Edges, kept: Edges)
    requires Latest(events, e) && Holds(peers, events, pending, confirmed) && !e.kind.Graft? && !e.kind.Prune?
    requires left.Keys == kept.Keys
    requires forall topic :: At(left, topic) == Staying(peers, e, topic, At(pending, topic))
    requires forall topic :: At(kept, topic) == Staying(peers, e, topic, At(confirmed, topic))
    ensures Holds(peers, events + {e}, left, kept)
  {
    hide Requested;
    forall topic, x
      ensures x in At(left, topic) <==> Requested(peers, events + {e}, topic, x)
      ensures x in At(kept, topic) <==> Linked(peers, events + {e}, topic, x)
    {
      RequestStep(peers, events, e, topic, x);
      RequestStep(peers, events, e, topic, Reverse(x));
    }
  }

  ghost predicate Mutual(edges: set<Edge>, both: set<Edge>) { forall z :: z in both <==> z in edges && Reverse(z) in edges }

  lemma HoldsMeans(peers: Peers, events: set<Event>, pending: Edges, confirmed: Edges)
    requires Holds(peers, events, pending, confirmed)
    ensures pending.Keys == confirmed.Keys && forall topic :: Mutual(At(pending, topic), At(confirmed, topic))
    ensures forall topic, x :: x in At(confirmed, topic) ==> x in At(pending, topic) && Reverse(x) in At(confirmed, topic)
  {
    hide Requested;
    assert forall x :: Reverse(Reverse(x)) == x;
  }

  // Both directions of the table, for one edge added or removed.
  lemma MeshHolds(peers: Peers, events: set<Event>, e: Event, pending: Edges, confirmed: Edges, left: Edges, kept: Edges)
    requires Latest(events, e) && Holds(peers, events, pending, confirmed) && left.Keys == kept.Keys
    requires e.kind.Graft? || e.kind.Prune?
    requires forall topic, x :: x in At(left, topic) <==> Grafts(e, topic, x) || (x in At(pending, topic) && !Prunes(e, topic, x))
    requires forall topic :: Mutual(At(left, topic), At(kept, topic))
    ensures Holds(peers, events + {e}, left, kept)
  {
    hide Requested;
    forall topic, x
      ensures x in At(left, topic) <==> Requested(peers, events + {e}, topic, x)
      ensures x in At(kept, topic) <==> Linked(peers, events + {e}, topic, x)
    {
      assert Mutual(At(left, topic), At(kept, topic));
      RequestStep(peers, events, e, topic, x);
      RequestStep(peers, events, e, topic, Reverse(x));
    }
  }

  lemma EdgeTraded(edges: set<Edge>, both: set<Edge>, x: Edge)
    requires Mutual(edges, both) && Proper(x)
    ensures Mutual(edges + {x}, if Reverse(x) in edges && x !in both then both + {x, Reverse(x)} else both)
    ensures Mutual(edges - {x} - {Reverse(x)}, both - {x} - {Reverse(x)})
  {
    forall z ensures Reverse(z) == x <==> z == Reverse(x) { }
  }

  // A graft or a prune. `changed` is what the program counts: a link formed, or one broken.
  method Trade(peers: Peers, e: Event, was: Edges, links: Edges, ghost events: set<Event>) returns (pending: Edges, confirmed: Edges, changed: bool)
    requires Latest(events, e) && Holds(peers, events, was, links) && (e.kind.Graft? || e.kind.Prune?)
    ensures Holds(peers, events + {e}, pending, confirmed)
    ensures e.kind.Graft? ==>
      (changed <==> Proper(EdgeOf(e)) && !Linked(peers, events, e.topic, EdgeOf(e)) && Linked(peers, events + {e}, e.topic, EdgeOf(e)))
    ensures e.kind.Prune? ==> (changed <==> Proper(EdgeOf(e)) && Linked(peers, events, e.topic, EdgeOf(e)))
  {
    hide Requested, Linked, Mutual;
    HoldsMeans(peers, events, was, links);
    pending, confirmed, changed := was, links, false;
    if e.topic !in pending { pending, confirmed := pending[e.topic := {}], confirmed[e.topic := {}]; }
    var x, y := EdgeOf(e), Reverse(EdgeOf(e));
    assert forall t :: At(pending, t) == At(was, t) && At(confirmed, t) == At(links, t);
    if Proper(x) {
      var edges, both := pending[e.topic], confirmed[e.topic];
      assert At(was, e.topic) == edges && At(links, e.topic) == both;
      EdgeTraded(edges, both, x);
      if e.kind.Graft? {
        edges := edges + {x};
        if y in edges && x !in both { both, changed := both + {x, y}, true; }
      } else {
        changed := x in both;
        edges, both := edges - {x} - {y}, both - {x} - {y};
      }
      assert Mutual(edges, both);
      pending, confirmed := pending[e.topic := edges], confirmed[e.topic := both];
    }
    forall topic ensures Mutual(At(pending, topic), At(confirmed, topic)) {
      assert Mutual(At(was, topic), At(links, topic));
    }
    MeshHolds(peers, events, e, was, links, pending, confirmed);
  }

  // ------------------------------------------------------------ the counters

  function Norm(x: Edge): Edge { if x.from < x.to then x else Reverse(x) }

  datatype Moment = Moment(topic: ID, edge: Edge, at: Time)

  function MomentOf(e: Event): Moment { Moment(e.topic, Norm(EdgeOf(e)), e.at) }

  // Grafts come first and prunes last among the events of one time.
  ghost function Prior(events: set<Event>, at: Time): set<Event> { set x | x in events && x.at < at }

  ghost function WithGrafts(events: set<Event>, at: Time): set<Event> {
    set x | x in events && (x.at < at || (x.at == at && x.kind.Graft?))
  }

  ghost function WithoutPrunes(events: set<Event>, at: Time): set<Event> {
    set x | x in events && (x.at < at || (x.at == at && !x.kind.Prune?))
  }

  /** A link that the grafts of one time formed. */
  ghost predicate Forms(peers: Peers, events: set<Event>, m: Moment) {
    Linked(peers, WithGrafts(events, m.at), m.topic, m.edge) && !Linked(peers, Prior(events, m.at), m.topic, m.edge)
  }

  /** A link that the prunes of one time broke. */
  ghost predicate Breaks(peers: Peers, events: set<Event>, m: Moment) { Linked(peers, WithoutPrunes(events, m.at), m.topic, m.edge) }

  ghost function Formed(peers: Peers, events: set<Event>): set<Moment> {
    set e | e in events && e.kind.Graft? && Proper(EdgeOf(e)) && Forms(peers, events, MomentOf(e)) :: MomentOf(e)
  }

  ghost function Broken(peers: Peers, events: set<Event>): set<Moment> {
    set e | e in events && e.kind.Prune? && Proper(EdgeOf(e)) && Breaks(peers, events, MomentOf(e)) :: MomentOf(e)
  }

  lemma LinkedBoth(peers: Peers, events: set<Event>, topic: ID, x: Edge)
    ensures Linked(peers, events, topic, x) <==> Linked(peers, events, topic, Norm(x))
  {
  }

  lemma LinkStep(peers: Peers, events: set<Event>, e: Event, topic: ID, x: Edge)
    requires Latest(events, e)
    ensures !Clears(peers, e, topic, x) && !Grafts(e, topic, x) && !Grafts(e, topic, Reverse(x)) ==>
      (Linked(peers, events + {e}, topic, x) <==> Linked(peers, events, topic, x))
    ensures !Clears(peers, e, topic, x) && Linked(peers, events, topic, x) ==> Linked(peers, events + {e}, topic, x)
  {
    hide Requested;
    RequestStep(peers, events, e, topic, x);
    RequestStep(peers, events, e, topic, Reverse(x));
    ClearsBoth(peers, e, topic, x);
  }

  // The parts of the history up to a time that is not after the last event.
  lemma PartsStep(events: set<Event>, e: Event, at: Time)
    requires Latest(events, e) && at <= e.at
    ensures Prior(events + {e}, at) == Prior(events, at)
    ensures WithGrafts(events + {e}, at) == if at == e.at && e.kind.Graft? then events + {e} else WithGrafts(events, at)
    ensures at == e.at && e.kind.Graft? ==> WithGrafts(events, at) == events
    ensures at == e.at && e.kind.Prune? ==> WithoutPrunes(events + {e}, at) == WithoutPrunes(events, at)
    ensures at < e.at ==> WithoutPrunes(events + {e}, at) == WithoutPrunes(events, at)
  {
  }

  // Only grafts of the last time lie between the prior events and now.
  lemma PriorLinks(peers: Peers, events: set<Event>, e: Event, topic: ID, x: Edge)
    requires Latest(events, e) && e.kind.Graft?
    ensures Requested(peers, Prior(events, e.at), topic, x) ==> Requested(peers, events, topic, x)
    ensures Requested(peers, events, topic, x) ==>
      Requested(peers, Prior(events, e.at), topic, x) || exists g :: g in events && g.at == e.at && Grafts(g, topic, x)
  {
    hide Touches, Proper;
    var prior := Prior(events, e.at);
    if Requested(peers, prior, topic, x) {
      var g :| g in prior && Grafts(g, topic, x) && forall c :: c in prior && Clears(peers, c, topic, x) ==> c.at < g.at;
      assert g in events;
    }
    if Requested(peers, events, topic, x) {
      var g :| g in events && Grafts(g, topic, x) && forall c :: c in events && Clears(peers, c, topic, x) ==> c.at < g.at;
      if g.at < e.at { assert g in prior; }
    }
  }

  // A moment is formed if some graft of that time and link is there, and the link was formed.
  ghost predicate HasGraft(events: set<Event>, m: Moment) { exists g :: g in events && g.kind.Graft? && Proper(EdgeOf(g)) && MomentOf(g) == m }

  ghost predicate HasPrune(events: set<Event>, m: Moment) { exists g :: g in events && g.kind.Prune? && Proper(EdgeOf(g)) && MomentOf(g) == m }

  lemma FormedIs(peers: Peers, events: set<Event>, m: Moment)
    ensures m in Formed(peers, events) <==> HasGraft(events, m) && Forms(peers, events, m)
  {
    hide Forms;
  }

  lemma BrokenIs(peers: Peers, events: set<Event>, m: Moment)
    ensures m in Broken(peers, events) <==> HasPrune(events, m) && Breaks(peers, events, m)
  {
    hide Breaks;
  }

  // Another moment is formed as before.
  lemma OtherForms(peers: Peers, events: set<Event>, e: Event, m: Moment)
    requires Latest(events, e) && m.at <= e.at && m.edge == Norm(m.edge) && !(e.kind.Graft? && Proper(EdgeOf(e)) && m == MomentOf(e))
    ensures Forms(peers, events + {e}, m) <==> Forms(peers, events, m)
  {
    hide Linked, Prior, WithGrafts;
    PartsStep(events, e, m.at);
    LinkStep(peers, events, e, m.topic, m.edge);
  }

  lemma OwnForms(peers: Peers, events: set<Event>, e: Event)
    requires Latest(events, e) && e.kind.Graft? && Proper(EdgeOf(e))
    ensures var x, more, m := EdgeOf(e), events + {e}, MomentOf(e);
      var was, now := Linked(peers, events, e.topic, x), Linked(peers, more, e.topic, x);
      && (was ==> now) && (Forms(peers, more, m) <==> now && !Linked(peers, Prior(events, e.at), e.topic, x))
      && (Forms(peers, events, m) <==> was && !Linked(peers, Prior(events, e.at), e.topic, x))
      && (Linked(peers, Prior(events, e.at), e.topic, x) ==> was)
      && (Forms(peers, events, m) ==> HasGraft(events, m))
  {
    var x, more, prior := EdgeOf(e), events + {e}, Prior(events, e.at);
    PartsStep(events, e, e.at);
    LinkStep(peers, events, e, e.topic, x);
    LinkedBoth(peers, events, e.topic, x);
    LinkedBoth(peers, more, e.topic, x);
    LinkedBoth(peers, prior, e.topic, x);
    PriorLinked(peers, events, e);
    hide Linked, Prior, WithGrafts, HasGraft, Grafts, Proper, Norm;
  }

  lemma PriorLinked(peers: Peers, events: set<Event>, e: Event)
    requires Latest(events, e) && e.kind.Graft?
    ensures var x, prior := EdgeOf(e), Prior(events, e.at);
      && (Linked(peers, prior, e.topic, x) ==> Linked(peers, events, e.topic, x))
      && (Linked(peers, events, e.topic, x) && !Linked(peers, prior, e.topic, x) ==> HasGraft(events, MomentOf(e)))
  {
    PriorLinks(peers, events, e, e.topic, EdgeOf(e));
    PriorLinks(peers, events, e, e.topic, Reverse(EdgeOf(e)));
    GraftOf(events, e);
    hide Requested, Prior, HasGraft, Grafts;
  }

  lemma GraftOf(events: set<Event>, e: Event)
    ensures (exists g :: g in events && g.at == e.at && Grafts(g, e.topic, EdgeOf(e))) ==> HasGraft(events, MomentOf(e))
    ensures (exists g :: g in events && g.at == e.at && Grafts(g, e.topic, Reverse(EdgeOf(e)))) ==> HasGraft(events, MomentOf(e))
  {
    if g :| g in events && g.at == e.at && Grafts(g, e.topic, EdgeOf(e)) { assert MomentOf(g) == MomentOf(e); }
    if g :| g in events && g.at == e.at && Grafts(g, e.topic, Reverse(EdgeOf(e))) { assert MomentOf(g) == MomentOf(e); }
  }

  lemma GraftSeen(events: set<Event>, e: Event, m: Moment)
    requires Latest(events, e)
    ensures HasGraft(events + {e}, m) <==> HasGraft(events, m) || (e.kind.Graft? && Proper(EdgeOf(e)) && MomentOf(e) == m)
    ensures HasPrune(events + {e}, m) <==> HasPrune(events, m) || (e.kind.Prune? && Proper(EdgeOf(e)) && MomentOf(e) == m)
    ensures HasGraft(events, m) || HasPrune(events, m) ==> m.at <= e.at && m.edge == Norm(m.edge)
    ensures HasPrune(events, m) && m.at == e.at ==> e.kind.Prune?
  {
    if HasGraft(events, m) {
      var g :| g in events && g.kind.Graft? && Proper(EdgeOf(g)) && MomentOf(g) == m;
      assert g in events + {e};
    }
    if HasPrune(events, m) {
      var g :| g in events && g.kind.Prune? && Proper(EdgeOf(g)) && MomentOf(g) == m;
      assert g in events + {e};
    }
    if MomentOf(e) == m { assert e in events + {e}; }
  }

  // A graft forms at most its own link.
  lemma FormedStep(peers: Peers, events: set<Event>, e: Event)
    requires Latest(events, e)
    ensures var x := EdgeOf(e);
      var forms := e.kind.Graft? && Proper(x) && !Linked(peers, events, e.topic, x) && Linked(peers, events + {e}, e.topic, x);
      && Formed(peers, events + {e}) == (if forms then Formed(peers, events) + {MomentOf(e)} else Formed(peers, events))
      && (forms ==> MomentOf(e) !in Formed(peers, events))
  {
    hide Linked, Formed, Forms, Prior, HasGraft, HasPrune, MomentOf;
    var x, more := EdgeOf(e), events + {e};
    var forms := e.kind.Graft? && Proper(x) && !Linked(peers, events, e.topic, x) && Linked(peers, more, e.topic, x);
    if e.kind.Graft? && Proper(x) { OwnForms(peers, events, e); }
    forall m ensures m in Formed(peers, more) <==> m in Formed(peers, events) || (forms && m == MomentOf(e)) {
      FormedIs(peers, more, m);
      FormedIs(peers, events, m);
      GraftSeen(events, e, m);
      if HasGraft(events, m) && !(e.kind.Graft? && Proper(x) && m == MomentOf(e)) { OtherForms(peers, events, e, m); }
    }
    if forms { FormedIs(peers, events, MomentOf(e)); }
  }

  // Of the last time, only prunes of the link itself lie between.
  lemma PrunesLink(peers: Peers, events: set<Event>, e: Event, topic: ID, x: Edge)
    requires Latest(events, e) && e.kind.Prune?
    ensures Requested(peers, events, topic, x) <==>
      Requested(peers, WithoutPrunes(events, e.at), topic, x) && !(exists p :: p in events && p.at == e.at && Prunes(p, topic, x))
  {
    hide Touches, Proper;
    var before := WithoutPrunes(events, e.at);
    if Requested(peers, events, topic, x) {
      var g :| g in events && Grafts(g, topic, x) && forall c :: c in events && Clears(peers, c, topic, x) ==> c.at < g.at;
      assert g in before;
    }
    if Requested(peers, before, topic, x) && !(exists p :: p in events && p.at == e.at && Prunes(p, topic, x)) {
      var g :| g in before && Grafts(g, topic, x) && forall c :: c in before && Clears(peers, c, topic, x) ==> c.at < g.at;
      forall c | c in events && Clears(peers, c, topic, x) ensures c.at < g.at {
        assert c in before || (c.at == e.at && c.kind.Prune?);
      }
      assert g in events;
    }
  }

  lemma PruneSeen(events: set<Event>, e: Event)
    requires Proper(EdgeOf(e))
    ensures HasPrune(events, MomentOf(e)) <==> exists p :: p in events && p.at == e.at && Prunes(p, e.topic, EdgeOf(e))
    ensures (exists p :: p in events && p.at == e.at && Prunes(p, e.topic, Reverse(EdgeOf(e)))) <==>
      exists p :: p in events && p.at == e.at && Prunes(p, e.topic, EdgeOf(e))
  {
    var x, m := EdgeOf(e), MomentOf(e);
    if HasPrune(events, m) {
      var p :| p in events && p.kind.Prune? && Proper(EdgeOf(p)) && MomentOf(p) == m;
      assert Prunes(p, e.topic, x);
    }
    forall p ensures Prunes(p, e.topic, Reverse(x)) <==> Prunes(p, e.topic, x) { }
    if p :| p in events && p.at == e.at && Prunes(p, e.topic, x) { assert MomentOf(p) == m; }
  }

  lemma OwnBreaks(peers: Peers, events: set<Event>, e: Event)
    requires Latest(events, e) && e.kind.Prune? && Proper(EdgeOf(e))
    ensures var more, m := events + {e}, MomentOf(e);
      && (Breaks(peers, more, m) <==> Breaks(peers, events, m))
      && (Linked(peers, events, e.topic, EdgeOf(e)) <==> Breaks(peers, events, m) && !HasPrune(events, m))
  {
    var x := EdgeOf(e);
    PartsStep(events, e, e.at);
    LinkedBoth(peers, WithoutPrunes(events, e.at), e.topic, x);
    PrunesLink(peers, events, e, e.topic, x);
    PrunesLink(peers, events, e, e.topic, Reverse(x));
    PruneSeen(events, e);
    hide Requested, WithoutPrunes, Prunes, Proper, Norm, HasPrune;
  }

  // A prune breaks at most its own link.
  lemma BrokenStep(peers: Peers, events: set<Event>, e: Event)
    requires Latest(events, e)
    ensures var breaks := e.kind.Prune? && Proper(EdgeOf(e)) && Linked(peers, events, e.topic, EdgeOf(e));
      && Broken(peers, events + {e}) == (if breaks then Broken(peers, events) + {MomentOf(e)} else Broken(peers, events))
      && (breaks ==> MomentOf(e) !in Broken(peers, events))
  {
    hide Linked, Broken, WithoutPrunes, HasGraft, HasPrune, MomentOf;
    var x, more := EdgeOf(e), events + {e};
    var breaks := e.kind.Prune? && Proper(x) && Linked(peers, events, e.topic, x);
    if e.kind.Prune? && Proper(x) { OwnBreaks(peers, events, e); }
    forall m ensures m in Broken(peers, more) <==> m in Broken(peers, events) || (breaks && m == MomentOf(e)) {
      BrokenIs(peers, more, m);
      BrokenIs(peers, events, m);
      GraftSeen(events, e, m);
      if HasPrune(events, m) { PartsStep(events, e, m.at); }
    }
    if breaks { BrokenIs(peers, events, MomentOf(e)); }
  }

  // The program counts by bins of five seconds.
  type Counts = map<nat, nat>

  const SECOND: nat := 1_000_000_000

  function Bin(at: Time): nat { at / SECOND / 5 * 5 }

  function CountAt(counts: Counts, bin: nat): nat { if bin in counts then counts[bin] else 0 }

  ghost function InBin(moments: set<Moment>, bin: nat): set<Moment> { set m | m in moments && Bin(m.at) == bin }

  ghost predicate Counted(moments: set<Moment>, counts: Counts) { forall bin :: CountAt(counts, bin) == |InBin(moments, bin)| }

  lemma BinGrows(moments: set<Moment>, m: Moment, bin: nat)
    requires m !in moments
    ensures |InBin(moments + {m}, bin)| == |InBin(moments, bin)| + if bin == Bin(m.at) then 1 else 0
  {
    hide Bin;
    assert InBin(moments + {m}, bin) == InBin(moments, bin) + if bin == Bin(m.at) then {m} else {};
  }

  method AddControl(counts: Counts, at: Time, ghost moments: set<Moment>, ghost m: Moment) returns (r: Counts)
    requires Counted(moments, counts) && m !in moments && m.at == at
    ensures Counted(moments + {m}, r)
  {
    hide Bin, InBin;
    r := counts[Bin(at) := CountAt(counts, Bin(at)) + 1];
    forall bin ensures CountAt(r, bin) == |InBin(moments + {m}, bin)| { BinGrows(moments, m, bin); }
  }
}
