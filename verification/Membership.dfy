/** The membership of a run over time, and the loop that replays the graph events.
    A life is one stretch of membership. The population of a message is taken from the lives
    by binary search in its receipt times, and is stated here by the events alone.
 */
module Membership {
  import opened Model
  import opened MeshHistory

  datatype Key = Key(node: ID, topic: ID)

  // The end of an open life is 0.
  datatype Life = Life(key: Key, start: Time, end: Time)

  predicate Joins(e: Event, k: Key) { e.kind.Join? && e.node == k.node && e.topic == k.topic }

  predicate Quits(e: Event, k: Key) { e.node == k.node && Departs(e, k.topic) }

  /** The node joined by time t, and what ended its membership by then came before it joined. */
  ghost predicate Member(events: set<Event>, k: Key, t: Time) {
    exists j :: j in events && Joins(j, k) && j.at <= t && forall c :: c in events && Quits(c, k) && c.at <= t ==> c.at < j.at
  }

  // It is a member after all events.
  ghost predicate Still(events: set<Event>, k: Key) {
    exists j :: j in events && Joins(j, k) && forall c :: c in events && Quits(c, k) ==> c.at < j.at
  }

  ghost predicate Joined(events: set<Event>, k: Key) { exists j :: j in events && Joins(j, k) }

  predicate Covers(l: Life, k: Key, t: Time) { l.key == k && l.start <= t && (l.end == 0 || t < l.end) }

  ghost predicate Covered(lives: seq<Life>, k: Key, t: Time) { exists i :: 0 <= i < |lives| && Covers(lives[i], k, t) }

  ghost predicate Has(lives: seq<Life>, k: Key) { exists i :: 0 <= i < |lives| && lives[i].key == k }

  ghost predicate Indexed(lives: seq<Life>, open: map<Key, nat>) {
    && (forall k :: k in open ==> open[k] < |lives| && lives[open[k]].key == k && lives[open[k]].end == 0)
    && (forall i :: 0 <= i < |lives| && lives[i].end == 0 ==> lives[i].key in open && open[lives[i].key] == i)
  }

  ghost predicate Dated(events: set<Event>, l: Life) { exists x :: x in events && l.start <= x.at && l.end <= x.at }

  ghost predicate Lived(events: set<Event>, lives: seq<Life>, open: map<Key, nat>) {
    && Indexed(lives, open)
    && (forall i :: 0 <= i < |lives| ==> Dated(events, lives[i]))
    && (forall k :: k in open <==> Still(events, k))
    && (forall k :: Has(lives, k) <==> Joined(events, k))
    && (forall k, t :: Covered(lives, k, t) <==> Member(events, k, t))
  }

  // ------------------------------------------------------------ one event

  lemma MemberStep(events: set<Event>, e: Event, k: Key, t: Time)
    requires Latest(events, e)
    ensures Member(events + {e}, k, t) <==> if e.at <= t && Joins(e, k) then true else !(e.at <= t && Quits(e, k)) && Member(events, k, t)
  {
    if Member(events, k, t) && !(e.at <= t && Quits(e, k)) {
      var j :| j in events && Joins(j, k) && j.at <= t && forall c :: c in events && Quits(c, k) && c.at <= t ==> c.at < j.at;
      assert j in events + {e};
    }
    if e.at <= t && Joins(e, k) { assert e in events + {e}; }
  }

  lemma StillStep(events: set<Event>, e: Event, k: Key)
    requires Latest(events, e)
    ensures Still(events + {e}, k) <==> Joins(e, k) || (Still(events, k) && !Quits(e, k))
    ensures Joined(events + {e}, k) <==> Joins(e, k) || Joined(events, k)
  {
    if Still(events, k) && !Quits(e, k) {
      var j :| j in events && Joins(j, k) && forall c :: c in events && Quits(c, k) ==> c.at < j.at;
      assert j in events + {e};
    }
    if j :| j in events && Joins(j, k) { assert j in events + {e}; }
    if Joins(e, k) { assert e in events + {e}; }
  }

  lemma StillIsMember(events: set<Event>, e: Event, k: Key, t: Time)
    requires Latest(events, e) && e.at <= t && Still(events, k)
    ensures Member(events, k, t)
  {
  }

  lemma DatedLater(events: set<Event>, e: Event, lives: seq<Life>, i: nat)
    requires i < |lives| && Dated(events, lives[i])
    ensures Dated(events + {e}, lives[i])
    ensures Latest(events, e) ==> lives[i].start <= e.at && lives[i].end <= e.at
  {
    var x :| x in events && lives[i].start <= x.at && lives[i].end <= x.at;
    assert x in events + {e};
  }

  // What the tables mean once a life was added, once some were closed, and if nothing changed.
  lemma LifeAdded(lives: seq<Life>, l: Life, k: Key, t: Time)
    ensures Covered(lives + [l], k, t) <==> Covered(lives, k, t) || Covers(l, k, t)
    ensures Has(lives + [l], k) <==> Has(lives, k) || l.key == k
  {
    var more := lives + [l];
    assert more[|lives|] == l;
    if Covered(lives, k, t) {
      var i :| 0 <= i < |lives| && Covers(lives[i], k, t);
      assert more[i] == lives[i];
    }
    if Has(lives, k) {
      var i :| 0 <= i < |lives| && lives[i].key == k;
      assert more[i] == lives[i];
    }
  }

  function Closed(l: Life, e: Event): Life { if l.end == 0 && Quits(e, l.key) then l.(end := e.at) else l }

  lemma LivesClosed(lives: seq<Life>, left: seq<Life>, e: Event, k: Key, t: Time)
    requires |left| == |lives| && forall i :: 0 <= i < |lives| ==> left[i] == Closed(lives[i], e) && lives[i].end <= e.at
    requires e.at != 0
    ensures Covered(left, k, t) <==> Covered(lives, k, t) && !(Quits(e, k) && e.at <= t)
    ensures Has(left, k) <==> Has(lives, k)
  {
    hide Quits;
    if Covered(left, k, t) {
      var i :| 0 <= i < |left| && Covers(left[i], k, t);
      assert Covers(lives[i], k, t);
    }
    if Covered(lives, k, t) && !(Quits(e, k) && e.at <= t) {
      var i :| 0 <= i < |lives| && Covers(lives[i], k, t);
      assert Covers(left[i], k, t);
    }
    if Has(left, k) {
      var i :| 0 <= i < |left| && left[i].key == k;
      assert lives[i].key == k;
    }
    if Has(lives, k) {
      var i :| 0 <= i < |lives| && lives[i].key == k;
      assert left[i].key == k;
    }
  }

  // What a join says of every key and time.
  lemma JoinMeans(events: set<Event>, e: Event)
    requires Latest(events, e) && e.kind.Join?
    ensures forall k :: Still(events + {e}, k) <==> k == Key(e.node, e.topic) || Still(events, k)
    ensures forall k :: Joined(events + {e}, k) <==> k == Key(e.node, e.topic) || Joined(events, k)
    ensures forall k, t :: Member(events + {e}, k, t) <==> (k == Key(e.node, e.topic) && e.at <= t) || Member(events, k, t)
    ensures forall t :: e.at <= t && Still(events, Key(e.node, e.topic)) ==> Member(events, Key(e.node, e.topic), t)
  {
    hide Still, Joined, Member, Latest;
    var own, more := Key(e.node, e.topic), events + {e};
    forall k ensures (Still(more, k) <==> k == own || Still(events, k)) && (Joined(more, k) <==> k == own || Joined(events, k)) {
      StillStep(events, e, k);
    }
    forall k, t ensures Member(more, k, t) <==> (k == own && e.at <= t) || Member(events, k, t) {
      MemberStep(events, e, k, t);
    }
    forall t | e.at <= t && Still(events, own) ensures Member(events, own, t) { StillIsMember(events, e, own, t); }
  }

  lemma DatesLast(events: set<Event>, e: Event, lives: seq<Life>)
    requires forall i :: 0 <= i < |lives| ==> Dated(events, lives[i])
    ensures forall i :: 0 <= i < |lives| ==> Dated(events + {e}, lives[i])
    ensures Latest(events, e) ==> forall i :: 0 <= i < |lives| ==> lives[i].start <= e.at && lives[i].end <= e.at
    ensures forall l: Life :: l.start == e.at && l.end == 0 ==> Dated(events + {e}, l)
  {
    assert e in events + {e};
    forall i | 0 <= i < |lives|
      ensures Dated(events + {e}, lives[i])
      ensures Latest(events, e) ==> lives[i].start <= e.at && lives[i].end <= e.at
    {
      DatedLater(events, e, lives, i);
    }
  }

  lemma StillHas(lives: seq<Life>, open: map<Key, nat>, k: Key)
    requires Indexed(lives, open) && k in open
    ensures Has(lives, k)
  {
    assert lives[open[k]].key == k;
  }

  // A second join of an open life is no event.
  lemma JoinAgain(events: set<Event>, e: Event, lives: seq<Life>, open: map<Key, nat>)
    requires Latest(events, e) && Lived(events, lives, open) && e.kind.Join? && Key(e.node, e.topic) in open
    ensures Lived(events + {e}, lives, open)
  {
    hide Still, Joined, Member, Covered, Has, Dated, Latest;
    JoinMeans(events, e);
    DatesLast(events, e, lives);
    StillHas(lives, open, Key(e.node, e.topic));
  }

  lemma JoinNew(events: set<Event>, e: Event, lives: seq<Life>, open: map<Key, nat>)
    requires Latest(events, e) && Lived(events, lives, open) && e.kind.Join? && Key(e.node, e.topic) !in open
    ensures Lived(events + {e}, lives + [Life(Key(e.node, e.topic), e.at, 0)], open[Key(e.node, e.topic) := |lives|])
  {
    hide Still, Joined, Member, Covered, Has, Dated, Latest;
    var own := Key(e.node, e.topic);
    var l := Life(own, e.at, 0);
    var after, now := lives + [l], open[own := |lives|];
    JoinMeans(events, e);
    DatesLast(events, e, lives);
    assert Indexed(after, now);
    forall k ensures Has(after, k) <==> Has(lives, k) || l.key == k { LifeAdded(lives, l, k, 0); }
    forall k, t ensures Covered(after, k, t) <==> Covered(lives, k, t) || Covers(l, k, t) { LifeAdded(lives, l, k, t); }
  }

  // What the end of a membership says of every key and time.
  lemma QuitMeans(events: set<Event>, e: Event)
    requires Latest(events, e) && !e.kind.Join?
    ensures forall k :: Still(events + {e}, k) <==> Still(events, k) && !Quits(e, k)
    ensures forall k :: Joined(events + {e}, k) <==> Joined(events, k)
    ensures forall k, t :: Member(events + {e}, k, t) <==> Member(events, k, t) && !(Quits(e, k) && e.at <= t)
  {
    hide Still, Joined, Member, Latest, Quits;
    var more := events + {e};
    forall k ensures (Still(more, k) <==> Still(events, k) && !Quits(e, k)) && (Joined(more, k) <==> Joined(events, k)) {
      StillStep(events, e, k);
    }
    forall k, t ensures Member(more, k, t) <==> Member(events, k, t) && !(Quits(e, k) && e.at <= t) {
      MemberStep(events, e, k, t);
    }
  }

  lemma QuitLives(events: set<Event>, e: Event, lives: seq<Life>, open: map<Key, nat>, left: seq<Life>, now: map<Key, nat>)
    requires Latest(events, e) && Lived(events, lives, open) && !e.kind.Join? && e.at != 0
    requires |left| == |lives| && forall i :: 0 <= i < |lives| ==> left[i] == Closed(lives[i], e)
    requires now == map k | k in open && !Quits(e, k) :: open[k]
    ensures Lived(events + {e}, left, now)
  {
    hide Still, Joined, Member, Covered, Has, Latest, Quits;
    QuitMeans(events, e);
    DatesLast(events, e, lives);
    assert Indexed(left, now);
    forall k ensures Has(left, k) <==> Has(lives, k) { LivesClosed(lives, left, e, k, 0); }
    forall k, t ensures Covered(left, k, t) <==> Covered(lives, k, t) && !(Quits(e, k) && e.at <= t) {
      LivesClosed(lives, left, e, k, t);
    }
    forall i | 0 <= i < |left| ensures Dated(events + {e}, left[i]) {
      assert Dated(events + {e}, lives[i]) && e in events + {e};
    }
  }

  method CloseLives(e: Event, lives: seq<Life>, open: map<Key, nat>, ghost events: set<Event>) returns (left: seq<Life>, now: map<Key, nat>)
    requires Lived(events, lives, open)
    ensures |left| == |lives| && forall i :: 0 <= i < |lives| ==> left[i] == Closed(lives[i], e)
    ensures now == map k | k in open && !Quits(e, k) :: open[k]
  {
    hide Quits, Still, Joined, Member, Covered, Has, Dated;
    left, now := lives, open;
    var todo := open.Keys;
    while todo != {}
      invariant todo <= now.Keys <= open.Keys && forall k :: k in now ==> now[k] == open[k]
      invariant forall k :: k in open && k !in todo ==> (k in now <==> !Quits(e, k))
      invariant |left| == |lives| && forall i :: 0 <= i < |lives| ==> left[i] == if lives[i].key in todo then lives[i] else Closed(lives[i], e)
      decreases todo
    {
      var k :| k in todo;
      todo := todo - {k};
      if Quits(e, k) {
        left := left[now[k] := left[now[k]].(end := e.at)];
        now := now - {k};
      }
    }
  }

  // One event of the log: a join opens a life, an end closes those of the node.
  method Follow(e: Event, lives: seq<Life>, open: map<Key, nat>, ghost events: set<Event>) returns (left: seq<Life>, now: map<Key, nat>)
    requires Latest(events, e) && Lived(events, lives, open) && e.at != 0
    ensures Lived(events + {e}, left, now)
  {
    hide Lived, Latest;
    left, now := lives, open;
    if e.kind.Join? {
      var k := Key(e.node, e.topic);
      if k !in now {
        now := now[k := |left|];
        left := left + [Life(k, e.at, 0)];
        JoinNew(events, e, lives, open);
      } else {
        JoinAgain(events, e, lives, open);
      }
    } else {
      if e.kind.Leave? || e.kind.Stop? || e.kind.Terminated? { left, now := CloseLives(e, lives, open, events); }
      QuitLives(events, e, lives, open, left, now);
    }
  }

  // ------------------------------------------------------- the population

  ghost predicate Ordered(times: seq<Time>) { forall i, j :: 0 <= i < j < |times| ==> times[i] <= times[j] }

  /** The place of the first time that is not before the given one. */
  method Search(times: seq<Time>, t: Time) returns (i: nat)
    requires Ordered(times)
    ensures i <= |times| && forall j :: 0 <= j < |times| ==> (t <= times[j] <==> i <= j)
  {
    var j: nat := |times|;
    i := 0;
    while i < j
      invariant i <= j <= |times|
      invariant forall n :: 0 <= n < i ==> times[n] < t
      invariant forall n :: j <= n < |times| ==> t <= times[n]
    {
      var h := (i + j) / 2;
      if times[h] < t { i := h + 1; } else { j := h; }
    }
  }

  ghost predicate Present(lives: seq<Life>, k: Key, times: seq<Time>) { exists t :: t in times && Covered(lives, k, t) }

  ghost predicate Overlaps(l: Life, k: Key, times: seq<Time>) { exists t :: t in times && Covers(l, k, t) }

  // The first receipt from the start on decides.
  lemma FirstDecides(l: Life, times: seq<Time>, i: nat)
    requires Ordered(times) && i <= |times| && forall j :: 0 <= j < |times| ==> (l.start <= times[j] <==> i <= j)
    ensures (i < |times| && (l.end == 0 || times[i] < l.end)) <==> Overlaps(l, l.key, times)
  {
    if i < |times| && (l.end == 0 || times[i] < l.end) { assert Covers(l, l.key, times[i]); }
    if Overlaps(l, l.key, times) {
      var t :| t in times && Covers(l, l.key, t);
      var j :| 0 <= j < |times| && times[j] == t;
    }
  }

  lemma PresentIs(lives: seq<Life>, k: Key, times: seq<Time>)
    ensures Present(lives, k, times) <==> exists i :: 0 <= i < |lives| && Overlaps(lives[i], k, times)
  {
    hide Covers;
    if Present(lives, k, times) {
      var t :| t in times && Covered(lives, k, t);
      var i :| 0 <= i < |lives| && Covers(lives[i], k, t);
      assert Overlaps(lives[i], k, times);
    }
    if i :| 0 <= i < |lives| && Overlaps(lives[i], k, times) {
      var t :| t in times && Covers(lives[i], k, t);
      assert Covered(lives, k, t);
    }
  }

  // The nodes of the topic whose lives contain a receipt time, and whether there is any life of it.
  method Overlapping(lives: seq<Life>, topic: ID, publisher: ID, times: seq<Time>) returns (nodes: set<ID>, observed: bool)
    requires Ordered(times)
    ensures forall n :: n in nodes <==> n != publisher && Present(lives, Key(n, topic), times)
    ensures observed <==> exists i :: 0 <= i < |lives| && lives[i].key.topic == topic
  {
    hide Overlaps, Present, Ordered;
    nodes, observed := {}, false;
    for j := 0 to |lives|
      invariant observed <==> exists i :: 0 <= i < j && lives[i].key.topic == topic
      invariant forall n :: n in nodes <==> n != publisher && exists i :: 0 <= i < j && Overlaps(lives[i], Key(n, topic), times)
    {
      var l := lives[j];
      OnlyOwn(l, topic, times);
      if l.key.topic == topic {
        observed := true;
        if l.key.node != publisher {
          var i := Search(times, l.start);
          FirstDecides(l, times, i);
          if i < |times| && (l.end == 0 || times[i] < l.end) { nodes := nodes + {l.key.node}; }
        }
      }
    }
    forall n ensures Present(lives, Key(n, topic), times) <==> exists i :: 0 <= i < |lives| && Overlaps(lives[i], Key(n, topic), times) {
      PresentIs(lives, Key(n, topic), times);
    }
  }

  lemma OnlyOwn(l: Life, topic: ID, times: seq<Time>)
    ensures forall n :: Overlaps(l, Key(n, topic), times) ==> l.key == Key(n, topic)
  {
  }

  // ------------------------------------------------------------ the history

  ghost predicate Arranged<T>(s: seq<T>, key: T -> nat) { forall i, j :: 0 <= i < j < |s| ==> key(s[i]) <= key(s[j]) }

  lemma InsertArranged<T>(s: seq<T>, key: T -> nat, x: T, i: nat)
    requires Arranged(s, key) && i <= |s| && (i > 0 ==> key(s[i - 1]) <= key(x)) && (i < |s| ==> key(x) <= key(s[i]))
    ensures Arranged(s[..i] + [x] + s[i..], key)
  {
    var r := s[..i] + [x] + s[i..];
    forall a, b | 0 <= a < b < |r| ensures key(r[a]) <= key(r[b]) {
      var p, q := if a <= i then a else a - 1, if b <= i then b else b - 1;
      assert a == i || r[a] == s[p];
      assert b == i || r[b] == s[q];
      assert b == i > 0 ==> key(s[p]) <= key(s[i - 1]);
      assert a == i < |s| ==> key(s[i]) <= key(s[q]);
    }
  }

  method Insert<T>(s: seq<T>, key: T -> nat, x: T) returns (r: seq<T>)
    requires Arranged(s, key)
    ensures Arranged(r, key) && multiset(r) == multiset(s) + multiset{x}
  {
    var i := |s|;
    while i > 0 && key(x) < key(s[i - 1])
      invariant 0 <= i <= |s| && (i < |s| ==> key(x) <= key(s[i]))
    {
      i := i - 1;
    }
    InsertArranged(s, key, x, i);
    hide Arranged;
    assert s == s[..i] + s[i..];
    r := s[..i] + [x] + s[i..];
  }

  method SortBy<T>(s: seq<T>, key: T -> nat) returns (r: seq<T>)
    ensures Arranged(r, key) && multiset(r) == multiset(s)
  {
    r := [];
    for n := 0 to |s|
      invariant Arranged(r, key) && multiset(r) == multiset(s[..n])
    {
      r := Insert(r, key, s[n]);
      assert s[..n + 1] == s[..n] + [s[n]];
    }
    assert s[..|s|] == s;
  }

  function Place(e: Event): nat { 6 * e.at + Rank(e.kind) }

  datatype What = Graph(kind: Kind) | Start(topics: seq<ID>) | Other

  // A trace event as it arrives.
  datatype Trace = Trace(at: Time, node: ID, peer: ID, remote: ID, topic: ID, what: What)

  // What later parts read of the lives: members at a time, and nodes that ever joined.
  ghost predicate Traced(events: set<Event>, lives: seq<Life>) {
    && (forall k :: Has(lives, k) <==> Joined(events, k))
    && (forall k, t :: Covered(lives, k, t) <==> Member(events, k, t))
  }

  lemma TracedIs(events: set<Event>, lives: seq<Life>, open: map<Key, nat>)
    requires Lived(events, lives, open)
    ensures Traced(events, lives)
  {
  }

  lemma NothingLived(peers: Peers)
    ensures Lived({}, [], map[]) && Holds(peers, {}, map[], map[])
    ensures Counted(Formed(peers, {}), map[]) && Counted(Broken(peers, {}), map[])
  {
    assert forall bin :: InBin({}, bin) == {};
    assert Formed(peers, {}) == {} && Broken(peers, {}) == {};
  }

  datatype Outcome = Outcome(pending: Edges, confirmed: Edges, lives: seq<Life>, grafts: Counts, prunes: Counts)

  ghost predicate Replayed(peers: Peers, events: set<Event>, o: Outcome) {
    && Holds(peers, events, o.pending, o.confirmed) && Traced(events, o.lives)
    && Counted(Formed(peers, events), o.grafts) && Counted(Broken(peers, events), o.prunes)
  }

  // A measurement start joins each of its topics.
  ghost predicate Starts(more: seq<Event>, t: Trace)
    requires t.what.Start?
  {
    && |more| == |t.what.topics|
    && forall i :: 0 <= i < |more| ==> more[i] == Event(t.at, Join, t.node, t.peer, 0, t.what.topics[i])
  }

  // What the replay finds, spelled out. An event ends what came no later than itself.
  ghost predicate Ends(e: Event, node: ID, topic: ID) {
    e.node == node && ((e.kind.Leave? && e.topic == topic) || e.kind.Stop? || e.kind.Terminated?)
  }

  ghost predicate Cuts(peers: Peers, e: Event, topic: ID, p: ID, q: ID) {
    || (e.kind.Prune? && e.topic == topic && ((e.peer == p && e.remote == q) || (e.peer == q && e.remote == p)))
    || (p in peers && Ends(e, peers[p], topic)) || (q in peers && Ends(e, peers[q], topic))
  }

  ghost predicate Asks(peers: Peers, events: set<Event>, topic: ID, p: ID, q: ID) {
    && p != 0 && q != 0 && p != q
    && exists g :: (g in events && g.kind.Graft? && g.topic == topic && g.peer == p && g.remote == q
                    && forall c :: c in events && g.at <= c.at ==> !Cuts(peers, c, topic, p, q))
  }

  ghost predicate Belongs(events: set<Event>, node: ID, topic: ID, t: Time) {
    exists j :: j in events && j.kind.Join? && j.node == node && j.topic == topic && j.at <= t
      && forall c :: c in events && j.at <= c.at <= t ==> !Ends(c, node, topic)
  }

  ghost function InSpan(moments: set<Moment>, second: nat): set<Moment> {
    set m | m in moments && second * 1_000_000_000 <= m.at < (second + 5) * 1_000_000_000
  }

  ghost predicate Told(peers: Peers, events: set<Event>, o: Outcome) {
    && (forall topic: ID, p: ID, q: ID :: Edge(p, q) in At(o.pending, topic) <==> Asks(peers, events, topic, p, q))
    && (forall topic: ID, p: ID, q: ID :: Edge(p, q) in At(o.confirmed, topic) <==>
          Asks(peers, events, topic, p, q) && Asks(peers, events, topic, q, p))
    && (forall node: ID, topic: ID, t: Time :: Belongs(events, node, topic, t) <==>
          exists i :: 0 <= i < |o.lives| && o.lives[i].key == Key(node, topic) && o.lives[i].start <= t
                      && (o.lives[i].end == 0 || t < o.lives[i].end))
    && (forall bin: nat :: bin % 5 == 0 ==> CountAt(o.grafts, bin) == |InSpan(Formed(peers, events), bin)|)
    && (forall bin: nat :: bin % 5 == 0 ==> CountAt(o.prunes, bin) == |InSpan(Broken(peers, events), bin)|)
  }

  lemma AsksMeans(peers: Peers, events: set<Event>, topic: ID, p: ID, q: ID)
    requires forall e :: e in events ==> e.node != NO_ID
    ensures Requested(peers, events, topic, Edge(p, q)) <==> Asks(peers, events, topic, p, q)
  {
    var x := Edge(p, q);
    if p != 0 && q != 0 && p != q {
      forall c | c in events ensures Clears(peers, c, topic, x) <==> Cuts(peers, c, topic, p, q) { }
      forall g ensures Grafts(g, topic, x) <==> g.kind.Graft? && g.topic == topic && g.peer == p && g.remote == q { }
      hide Clears, Cuts, Grafts;
      if Requested(peers, events, topic, x) {
        var g :| g in events && Grafts(g, topic, x) && forall c :: c in events && Clears(peers, c, topic, x) ==> c.at < g.at;
      }
    }
  }

  lemma BelongsMeans(events: set<Event>, node: ID, topic: ID, t: Time)
    ensures Member(events, Key(node, topic), t) <==> Belongs(events, node, topic, t)
  {
    var k := Key(node, topic);
    forall c ensures Quits(c, k) <==> Ends(c, node, topic) { }
    hide Quits, Ends;
    if Member(events, k, t) {
      var j :| j in events && Joins(j, k) && j.at <= t && forall c :: c in events && Quits(c, k) && c.at <= t ==> c.at < j.at;
    }
    if Belongs(events, node, topic, t) {
      var j :| j in events && j.kind.Join? && j.node == node && j.topic == topic && j.at <= t
        && forall c :: c in events && j.at <= c.at <= t ==> !Ends(c, node, topic);
      assert Joins(j, k);
    }
  }

  lemma SpanIsBin(moments: set<Moment>, bin: nat)
    requires bin % 5 == 0
    ensures InBin(moments, bin) == InSpan(moments, bin)
  {
    forall m | m in moments ensures Bin(m.at) == bin <==> bin * 1_000_000_000 <= m.at < (bin + 5) * 1_000_000_000 { }
  }

  lemma ReplayMeans(peers: Peers, events: set<Event>, o: Outcome)
    requires Replayed(peers, events, o) && forall e :: e in events ==> e.node != NO_ID
    ensures Told(peers, events, o)
  {
    hide Requested, Asks, Member, Belongs, Formed, Broken, InBin, InSpan, Has, Joined;
    forall topic: ID, p: ID, q: ID
      ensures Edge(p, q) in At(o.pending, topic) <==> Asks(peers, events, topic, p, q)
      ensures Edge(p, q) in At(o.confirmed, topic) <==> Asks(peers, events, topic, p, q) && Asks(peers, events, topic, q, p)
    {
      AsksMeans(peers, events, topic, p, q);
      AsksMeans(peers, events, topic, q, p);
    }
    forall node: ID, topic: ID, t: Time ensures Belongs(events, node, topic, t) <==> Covered(o.lives, Key(node, topic), t) {
      BelongsMeans(events, node, topic, t);
    }
    forall bin: nat | bin % 5 == 0
      ensures CountAt(o.grafts, bin) == |InSpan(Formed(peers, events), bin)| && CountAt(o.prunes, bin) == |InSpan(Broken(peers, events), bin)|
    {
      SpanIsBin(Formed(peers, events), bin);
      SpanIsBin(Broken(peers, events), bin);
    }
  }

  class History {
    var peers: Peers
    var log: seq<Event>

    constructor ()
      ensures peers == map[] && log == []
    {
      peers, log := map[], [];
    }

    method Observe(t: Trace)
      requires Recorded(log)
      modifies this
      ensures Recorded(log) && old(log) <= log
      ensures t.node == 0 || t.at == 0 || t.what.Other? ==> log == old(log)
      ensures t.node != 0 && t.at != 0 && t.what.Graph? ==>
        log == old(log) + [Event(t.at, t.what.kind, t.node, t.peer, t.remote, t.topic)]
      ensures t.node != 0 && t.at != 0 && t.what.Start? ==> Starts(log[|old(log)|..], t)
      ensures peers == if t.peer != NO_ID && t.node != NO_ID then old(peers)[t.peer := t.node] else old(peers)
    {
      if t.peer != NO_ID && t.node != NO_ID { peers := peers[t.peer := t.node]; }
      match t.what
      case Graph(kind) =>
        if t.node != NO_ID && t.at != 0 { log := log + [Event(t.at, kind, t.node, t.peer, t.remote, t.topic)]; }
      case Start(topics) =>
        if t.node != NO_ID && t.at != 0 {
          ghost var named := peers;
          for i := 0 to |topics|
            invariant old(log) <= log && |log| == |old(log)| + i && Recorded(log) && peers == named
            invariant forall j :: 0 <= j < i ==> log[|old(log)| + j] == Event(t.at, Join, t.node, t.peer, 0, topics[j])
          {
            log := log + [Event(t.at, Join, t.node, t.peer, NO_ID, topics[i])];
          }
        }
      case Other =>
    }

    /** Sorts the log and follows it. What comes out is determined by the events as a set. */
    method Replay() returns (o: Outcome)
      requires Recorded(log)
      modifies this`log
      ensures multiset(log) == multiset(old(log)) && SetOf(log) == SetOf(old(log)) && Recorded(log)
      ensures Replayed(peers, SetOf(log), o) && Told(peers, SetOf(log), o)
    {
      hide Lived, Holds, Traced, Told, Counted, Formed, Broken, Linked, Latest;
      ghost var raw := log;
      log := SortBy(log, Place);
      ghost var ordered := log;
      SameEvents(raw, log);
      var pending: Edges, confirmed: Edges, lives, grafts, prunes := map[], map[], [], map[], map[];
      var open: map<Key, nat> := map[];
      NothingLived(peers);
      assert SetOf(log[..0]) == {};
      for i := 0 to |log|
        invariant unchanged(this`peers) && log == ordered
        invariant Holds(peers, SetOf(log[..i]), pending, confirmed) && Lived(SetOf(log[..i]), lives, open)
        invariant Counted(Formed(peers, SetOf(log[..i])), grafts) && Counted(Broken(peers, SetOf(log[..i])), prunes)
      {
        var e := log[i];
        ghost var events := SetOf(log[..i]);
        NextIsLatest(log, i);
        lives, open := Follow(e, lives, open, events);
        FormedStep(peers, events, e);
        BrokenStep(peers, events, e);
        pending, confirmed, grafts, prunes := Update(peers, e, pending, confirmed, grafts, prunes, events);
      }
      assert log[..|log|] == log;
      TracedIs(SetOf(log), lives, open);
      o := Outcome(pending, confirmed, lives, grafts, prunes);
      assert Replayed(peers, SetOf(log), o);
      ReplayMeans(peers, SetOf(log), o);
    }
  }

  lemma SameEvents(raw: seq<Event>, log: seq<Event>)
    requires Recorded(raw) && multiset(raw) == multiset(log)
    requires Arranged(log, Place)
    ensures SetOf(raw) == SetOf(log) && Recorded(log) && Sorted(log)
  {
    forall e ensures e in raw <==> e in log {
      assert e in multiset(raw) <==> e in multiset(log);
    }
  }

  // The edges and the counters after one event.
  method Update(peers: Peers, e: Event, was: Edges, links: Edges, formed: Counts, broken: Counts, ghost events: set<Event>)
    returns (pending: Edges, confirmed: Edges, grafts: Counts, prunes: Counts)
    requires Latest(events, e) && Holds(peers, events, was, links)
    requires Counted(Formed(peers, events), formed) && Counted(Broken(peers, events), broken)
    ensures Holds(peers, events + {e}, pending, confirmed)
    ensures Counted(Formed(peers, events + {e}), grafts) && Counted(Broken(peers, events + {e}), prunes)
  {
    hide Holds, Counted, Formed, Broken, Linked, Latest;
    pending, confirmed, grafts, prunes := was, links, formed, broken;
    FormedStep(peers, events, e);
    BrokenStep(peers, events, e);
    if e.kind.Graft? || e.kind.Prune? {
      var changed;
      pending, confirmed, changed := Trade(peers, e, was, links, events);
      if changed && e.kind.Graft? {
        grafts := AddControl(grafts, e.at, Formed(peers, events), MomentOf(e));
      } else if changed {
        prunes := AddControl(prunes, e.at, Broken(peers, events), MomentOf(e));
      }
    } else {
      HoldsMeans(peers, events, was, links);
      if e.kind.Leave? || e.kind.Stop? || e.kind.Terminated? { pending, confirmed := Depart(peers, e, was, links); }
      DepartureHolds(peers, events, e, was, links, pending, confirmed);
    }
  }

  // The nodes that joined the topic at all.
  ghost predicate Observed(events: set<Event>, topic: ID) { exists j :: j in events && j.kind.Join? && j.topic == topic }

  // The times at which membership is asked for.
  predicate Asked(receipts: seq<Time>, publishedAt: Time, t: Time) { t in receipts || (receipts == [] && t == publishedAt && t != 0) }

  /** The population of a message: members of its topic at a receipt, or at the publication if there is none.
      Only without any join of the topic does it fall back to the targets of the dispatch. */
  method Population(lives: seq<Life>, topic: ID, publisher: ID, receipts: seq<Time>, publishedAt: Time,
                    targets: Option<set<ID>>, ghost events: set<Event>) returns (nodes: set<ID>)
    requires Traced(events, lives)
    ensures Observed(events, topic) ==> forall n :: n in nodes <==>
      (n != publisher && exists t :: Asked(receipts, publishedAt, t) && Member(events, Key(n, topic), t))
    ensures !Observed(events, topic) ==> nodes == if targets.Some? then targets.value - {publisher} else {}
  {
    hide Covered, Member, Has, Joined, Present;
    var times := receipts;
    if times == [] && publishedAt != 0 { times := times + [publishedAt]; }
    ghost var asked := times;
    times := SortBy(times, (t: Time) => t);
    var observed;
    nodes, observed := Overlapping(lives, topic, publisher, times);
    ObservedIs(events, lives, topic);
    forall n ensures Present(lives, Key(n, topic), times) <==>
      (exists t :: Asked(receipts, publishedAt, t) && Member(events, Key(n, topic), t))
    {
      PresentAt(events, lives, Key(n, topic), asked, times);
    }
    if !observed {
      nodes := {};
      match targets
      case Some(ids) => nodes := ids - {publisher};
      case None =>
    }
  }

  lemma ObservedIs(events: set<Event>, lives: seq<Life>, topic: ID)
    requires Traced(events, lives)
    ensures Observed(events, topic) <==> exists i :: 0 <= i < |lives| && lives[i].key.topic == topic
  {
    hide Covered, Member;
    if Observed(events, topic) {
      var j :| j in events && j.kind.Join? && j.topic == topic;
      assert Joins(j, Key(j.node, topic));
      assert Has(lives, Key(j.node, topic));
    }
    if i :| 0 <= i < |lives| && lives[i].key.topic == topic {
      assert Has(lives, lives[i].key);
      assert Joined(events, lives[i].key);
    }
  }

  lemma PresentAt(events: set<Event>, lives: seq<Life>, k: Key, asked: seq<Time>, times: seq<Time>)
    requires Traced(events, lives) && multiset(times) == multiset(asked)
    ensures Present(lives, k, times) <==> exists t :: t in asked && Member(events, k, t)
  {
    hide Covered, Member, Has, Joined;
    forall t ensures t in times <==> t in asked {
      assert t in multiset(times) <==> t in multiset(asked);
    }
  }

  /** Neither the order nor the repetition of the events shows in what the replay finds. */
  lemma ReplayIsDetermined(peers: Peers, events: set<Event>, a: Outcome, b: Outcome)
    requires Replayed(peers, events, a) && Replayed(peers, events, b)
    ensures forall topic :: At(a.pending, topic) == At(b.pending, topic) && At(a.confirmed, topic) == At(b.confirmed, topic)
    ensures forall k, t :: Covered(a.lives, k, t) <==> Covered(b.lives, k, t)
    ensures forall bin :: CountAt(a.grafts, bin) == CountAt(b.grafts, bin) && CountAt(a.prunes, bin) == CountAt(b.prunes, bin)
  {
    hide Requested, Linked, Covered, Member, Has, Joined, Formed, Broken, InBin;
    forall topic ensures At(a.pending, topic) == At(b.pending, topic) && At(a.confirmed, topic) == At(b.confirmed, topic) {
      assert forall x :: x in At(a.pending, topic) <==> x in At(b.pending, topic);
      assert forall x :: x in At(a.confirmed, topic) <==> x in At(b.confirmed, topic);
    }
  }
}
