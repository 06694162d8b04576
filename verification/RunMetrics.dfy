/** The per-run accumulator: events arrive in any order and more than once. It keeps what
    the session summary needs, and the summary does not depend on the order of arrival.
 */
module RunMetrics {
  import opened Model
  import opened SequenceRanges
  import opened SessionWindow
  import opened SessionSweep

  // ---------------------------------------------------------------- identity

  datatype Identity = Sequenced(node: ID, session: ID, sequence: uint64) | Named(node: ID, id: ID)

  function IdentityOf(e: Event): Option<Identity> {
    if e.session != NO_ID && e.sequence > 0 then Some(Sequenced(e.node, e.session, e.sequence))
    else if e.id == NO_ID then None
    else Some(Named(e.node, e.id))
  }

  ghost predicate Repeats(log: seq<Event>, e: Event) {
    IdentityOf(e).Some? && exists x :: x in log && IdentityOf(x) == IdentityOf(e)
  }

  // The arrivals that are not repetitions of an earlier one.
  ghost function Accepted(arrivals: seq<Event>): seq<Event> {
    if arrivals == [] then []
    else
      var before, e := Accepted(arrivals[..|arrivals| - 1]), arrivals[|arrivals| - 1];
      if Repeats(before, e) then before else before + [e]
  }

  // Two arrivals are one event if they share node, session and sequence number, or, where no
  // such number is given, node and identifier.
  ghost predicate SameEvent(x: Event, e: Event) {
    && x.node == e.node
    && if e.session != 0 && e.sequence > 0 then x.session == e.session && x.sequence == e.sequence
       else e.id != 0 && x.id == e.id && (x.session == 0 || x.sequence == 0)
  }

  lemma {:induction false} RepeatsMeans(arrivals: seq<Event>, e: Event)
    ensures Repeats(Accepted(arrivals), e) <==> exists x :: x in arrivals && SameEvent(x, e)
  {
    if arrivals != [] {
      var before, last := arrivals[..|arrivals| - 1], arrivals[|arrivals| - 1];
      RepeatsMeans(before, e);
      RepeatsMeans(before, last);
      assert forall x :: x in arrivals <==> x in before || x == last;
      var log := Accepted(before);
      if Repeats(Accepted(arrivals), e) && !Repeats(log, e) {
        assert SameEvent(last, e);
      } else if SameEvent(last, e) {
        if Repeats(log, last) {
          var x :| x in log && IdentityOf(x) == IdentityOf(last);
        } else {
          assert last in log + [last];
        }
      } else if Repeats(log, e) {
        var x :| x in log && IdentityOf(x) == IdentityOf(e);
        assert x in Accepted(arrivals);
      }
    }
  }

  // Equal identities mean the same event.
  ghost predicate Coherent(events: set<Event>) {
    forall e, f :: e in events && f in events && IdentityOf(e).Some? && IdentityOf(e) == IdentityOf(f) ==> e == f
  }

  // An event with an identity is accepted once, one without as often as it arrives.
  ghost predicate OnceEach(arrivals: seq<Event>, log: seq<Event>) {
    forall e :: multiset(log)[e] == if IdentityOf(e).Some? && e in arrivals then 1 else multiset(arrivals)[e]
  }

  lemma {:induction false} AcceptedOnce(arrivals: seq<Event>)
    requires Coherent(Elements(arrivals))
    ensures OnceEach(arrivals, Accepted(arrivals))
  {
    if arrivals != [] {
      var before, e := arrivals[..|arrivals| - 1], arrivals[|arrivals| - 1];
      assert arrivals == before + [e];
      assert forall x :: x in before ==> x in Elements(arrivals);
      AcceptedOnce(before);
      MembersAreAccepted(before, Accepted(before));
      if Repeats(Accepted(before), e) {
        var x :| x in Accepted(before) && IdentityOf(x) == IdentityOf(e);
        assert x in Elements(arrivals) && e in Elements(arrivals);
      }
    }
  }

  lemma MembersAreAccepted(arrivals: seq<Event>, log: seq<Event>)
    requires OnceEach(arrivals, log)
    ensures forall e :: e in log <==> e in arrivals
  {
    forall e ensures e in log <==> e in arrivals {
      assert e in log <==> multiset(log)[e] > 0;
      assert e in arrivals <==> multiset(arrivals)[e] > 0;
    }
  }

  // The same events in another order; those with an identity may repeat any number of times.
  ghost predicate Rearranged(a: seq<Event>, b: seq<Event>) {
    (forall e :: e in a <==> e in b) && forall e :: IdentityOf(e).None? ==> multiset(a)[e] == multiset(b)[e]
  }

  lemma AcceptedAgree(a: seq<Event>, b: seq<Event>)
    requires Rearranged(a, b) && Coherent(Elements(a))
    ensures multiset(Accepted(a)) == multiset(Accepted(b))
    ensures Elements(Accepted(a)) == Elements(a)
  {
    assert Elements(a) == Elements(b);
    AcceptedOnce(a);
    AcceptedOnce(b);
    MembersAreAccepted(a, Accepted(a));
    forall e ensures multiset(Accepted(a))[e] == multiset(Accepted(b))[e] {
      assert e in a <==> multiset(a)[e] > 0;
      assert e in b <==> multiset(b)[e] > 0;
    }
  }

  // ------------------------------------------------------ one event at a time

  predicate OfSession(e: Event, key: Key) { !e.kind.Terminated? && e.session != NO_ID && e.node != NO_ID && Key(e.node, e.session) == key }

  predicate Earlier(e: Event, known: Option<Event>) { known.None? || e.sequence < known.value.sequence }

  function SessionStep(s: Session, e: Event): Session {
    Session(if e.kind.Started? && Earlier(e, s.start) then Some(e) else s.start,
            if e.kind.StopMark? && Earlier(e, s.stop) then Some(e) else s.stop,
            if e.kind.Checkpoint? || e.kind.StopMark? then s.proofs + [e] else s.proofs,
            Insert(s.sequences, e.sequence), s.invalid || e.sequence == 0)
  }

  const NEW_SESSION: Session := Session(None, None, [], [], false)

  predicate Announces(e: Event) { e.kind.Publish? && e.windowed }

  function MessageOf(e: Event): MessageKey { MessageKey(e.topic, e.message) }

  function PublicationOf(e: Event): Publication {
    var length := if e.window == Some(None) then DEFAULT_WINDOW else if e.window.Some? then e.window.value.value else DEFAULT_WINDOW;
    Publication(MessageOf(e), e.node, e.targets, e.at, e.at + length,
                e.at != 0 && e.message != NO_ID && e.node != NO_ID && e.window != Some(None), e.local)
  }

  // A receipt outside any session is kept under the empty session name.
  predicate Receives(e: Event) { e.message != NO_ID && e.node != NO_ID && (e.kind.Deliver? || e.kind.Duplicate?) && !e.local }

  function ReceiptKey(e: Event): Key { Key(e.node, e.session) }

  function ReceiptStep(r: Receipts, e: Event): Receipts {
    if e.kind.Duplicate? then r.(duplicates := r.duplicates + [e]) else r.(deliveries := r.deliveries + [e])
  }

  predicate Lifecycle(e: Event) { e.kind.Started? || e.kind.Checkpoint? || e.kind.StopMark? }

  predicate Unattributed(e: Event) {
    !e.kind.Terminated? && (e.session == NO_ID || e.node == NO_ID) && (Lifecycle(e) || e.windowed)
  }

  predicate Removes(e: Event) { e.kind.Terminated? && e.node != NO_ID && e.at != 0 }

  function Get<K, V>(m: map<K, V>, k: K, default: V): V { if k in m then m[k] else default }

  function SessionsAfter(m: map<Key, Session>, e: Event): map<Key, Session> {
    var key := Key(e.node, e.session);
    if OfSession(e, key) then m[key := SessionStep(Get(m, key, NEW_SESSION), e)] else m
  }

  function PublicationsAfter(m: map<MessageKey, Publication>, e: Event): map<MessageKey, Publication> {
    if Announces(e) && MessageOf(e) !in m then m[MessageOf(e) := PublicationOf(e)] else m
  }

  function ReceiptsAfter(m: map<MessageKey, map<Key, Receipts>>, e: Event): map<MessageKey, map<Key, Receipts>> {
    if !Receives(e) then m
    else
      var inner := Get(m, MessageOf(e), map[]);
      m[MessageOf(e) := inner[ReceiptKey(e) := ReceiptStep(Get(inner, ReceiptKey(e), Receipts([], [])), e)]]
  }

  function TerminationsAfter(m: map<ID, seq<Event>>, e: Event): map<ID, seq<Event>> {
    if Removes(e) then m[e.node := Get(m, e.node, []) + [e]] else m
  }

  function WindowAfter(w: Window, e: Event): Window {
    if e.kind.Terminated? then w.(terminations := TerminationsAfter(w.terminations, e))
    else Window(SessionsAfter(w.sessions, e), PublicationsAfter(w.publications, e), ReceiptsAfter(w.receipts, e), w.terminations,
                w.incomplete || Unattributed(e))
  }

  // What one accepted event does to the sessions: it belongs to one unless it is a removal.
  ghost predicate SessionArrives(m: map<Key, Session>, e: Event, n: map<Key, Session>) {
    if e.kind.Terminated? || e.node == 0 || e.session == 0 then n == m
    else
      var key := Key(e.node, e.session);
      && key in n && n == m[key := n[key]]
      && (var was, now := if key in m then m[key] else Session(None, None, [], [], false), n[key];
          && now.start == (if e.kind.Started? && (was.start.None? || e.sequence < was.start.value.sequence) then Some(e) else was.start)
          && now.stop == (if e.kind.StopMark? && (was.stop.None? || e.sequence < was.stop.value.sequence) then Some(e) else was.stop)
          && now.proofs == (if e.kind.Checkpoint? || e.kind.StopMark? then was.proofs + [e] else was.proofs)
          && (now.invalid <==> was.invalid || e.sequence == 0)
          && (Canonical(was.sequences) ==>
                Canonical(now.sequences) && forall q :: Has(now.sequences, q) <==> Has(was.sequences, q) || (q == e.sequence && q != 0)))
  }

  // To the publications: the first announcement of a message counts, and its deadline is ten
  // seconds later unless it names a window.
  ghost predicate PublicationArrives(m: map<MessageKey, Publication>, e: Event, n: map<MessageKey, Publication>) {
    var key := MessageKey(e.topic, e.message);
    if e.kind.Publish? && e.windowed && key !in m then
      var length := if e.window.Some? && e.window.value.Some? then e.window.value.value else 10_000_000_000;
      var valid := e.at > 0 && e.message != 0 && e.node != 0 && (e.window.None? || e.window.value.Some?);
      n == m[key := Publication(key, e.node, e.targets, e.at, e.at + length, valid, e.local)]
    else n == m
  }

  // And to the receipts: deliveries and duplicates of named messages at other nodes.
  ghost predicate ReceiptArrives(w: Window, e: Event, v: Window) {
    var pair := Pair(MessageKey(e.topic, e.message), Key(e.node, e.session));
    && (forall p :: p != pair ==> ReceiptsOf(v, p) == ReceiptsOf(w, p))
    && (var was, now := ReceiptsOf(w, pair), ReceiptsOf(v, pair); var counts := e.message != 0 && e.node != 0 && !e.local;
        && now.deliveries == (if counts && e.kind.Deliver? then was.deliveries + [e] else was.deliveries)
        && now.duplicates == (if counts && e.kind.Duplicate? then was.duplicates + [e] else was.duplicates))
  }

  ghost predicate Arrives(w: Window, e: Event, v: Window) {
    && SessionArrives(w.sessions, e, v.sessions) && PublicationArrives(w.publications, e, v.publications) && ReceiptArrives(w, e, v)
    && (forall node :: Terminations(v, node) ==
          if e.kind.Terminated? && e.node != 0 && e.at > 0 && node == e.node then Terminations(w, node) + [e] else Terminations(w, node))
    && (v.incomplete <==> (w.incomplete || (!e.kind.Terminated? && (e.session == 0 || e.node == 0)
                           && (e.windowed || e.kind.Started? || e.kind.Checkpoint? || e.kind.StopMark?))))
  }

  lemma WindowAfterMeans(w: Window, e: Event)
    ensures Arrives(w, e, WindowAfter(w, e))
  {
    var v := WindowAfter(w, e);
    ReceiptsAfterMeans(w, e);
    SessionsAfterMeans(w.sessions, e);
    hide SessionArrives, ReceiptArrives, SessionsAfter, ReceiptsAfter;
  }

  lemma SessionsAfterMeans(m: map<Key, Session>, e: Event)
    ensures SessionArrives(m, e, if e.kind.Terminated? then m else SessionsAfter(m, e))
  {
    var key := Key(e.node, e.session);
    var was := if key in m then m[key] else Session(None, None, [], [], false);
    if Canonical(was.sequences) { InsertReceives(was.sequences, e.sequence); }
    hide Insert, Canonical, Has;
  }

  lemma ReceiptsAfterMeans(w: Window, e: Event)
    ensures ReceiptArrives(w, e, WindowAfter(w, e))
  {
    hide SessionsAfter, PublicationsAfter, Unattributed;
    var v, pair := WindowAfter(w, e), Pair(MessageOf(e), ReceiptKey(e));
    assert ReceiptsOf(v, pair) == if !e.kind.Terminated? && Receives(e) then ReceiptStep(ReceiptsOf(w, pair), e) else ReceiptsOf(w, pair);
    forall p | p != pair ensures ReceiptsOf(v, p) == ReceiptsOf(w, p) { }
  }

  const EMPTY: Window := Window(map[], map[], map[], map[], false)

  function WindowOf(log: seq<Event>): Window {
    if log == [] then EMPTY else WindowAfter(WindowOf(log[..|log| - 1]), log[|log| - 1])
  }

  // -------------------------------------------------- what the log determines

  ghost predicate SessionFrom(log: seq<Event>, key: Key, s: Session) {
    && (s.start.Some? ==> s.start.value in log && OfSession(s.start.value, key) && s.start.value.kind.Started?)
    && (forall e :: e in log && OfSession(e, key) && e.kind.Started? ==> s.start.Some? && s.start.value.sequence <= e.sequence)
    && (s.stop.Some? ==> s.stop.value in log && OfSession(s.stop.value, key) && s.stop.value.kind.StopMark?)
    && (forall e :: e in log && OfSession(e, key) && e.kind.StopMark? ==> s.stop.Some? && s.stop.value.sequence <= e.sequence)
    && (forall e :: e in s.proofs <==> e in log && OfSession(e, key) && (e.kind.Checkpoint? || e.kind.StopMark?))
    && SequencesFrom(log, key, s.sequences)
    && (s.invalid <==> exists e :: e in log && OfSession(e, key) && e.sequence == 0)
  }

  predicate ReceivedAs(e: Event, m: MessageKey, k: Key) { Receives(e) && MessageOf(e) == m && ReceiptKey(e) == k }

  // Every receipt is kept as often as it was accepted.
  ghost predicate ReceiptsFrom(log: seq<Event>, m: MessageKey, k: Key, r: Receipts) {
    && (forall e :: multiset(r.deliveries)[e] == if ReceivedAs(e, m, k) && e.kind.Deliver? then multiset(log)[e] else 0)
    && (forall e :: multiset(r.duplicates)[e] == if ReceivedAs(e, m, k) && e.kind.Duplicate? then multiset(log)[e] else 0)
  }

  ghost predicate Reflects(log: seq<Event>, w: Window) {
    && (forall key :: key in w.sessions <==> exists e :: e in log && OfSession(e, key))
    && (forall key :: SessionFrom(log, key, Get(w.sessions, key, NEW_SESSION)))
    && (forall m :: m in w.publications ==> exists e :: e in log && Announces(e) && MessageOf(e) == m && w.publications[m] == PublicationOf(e))
    && (forall e :: e in log && Announces(e) ==> MessageOf(e) in w.publications)
    && (forall m, k :: ReceiptsFrom(log, m, k, ReceiptsOf(w, Pair(m, k))))
    && (forall node, e :: e in Terminations(w, node) <==> e in log && Removes(e) && e.node == node)
    && (w.incomplete <==> exists e :: e in log && Unattributed(e))
  }

  lemma InSnoc(log: seq<Event>, e: Event)
    ensures forall x :: x in log + [e] <==> x in log || x == e
  {
  }

  ghost predicate SequencesFrom(log: seq<Event>, key: Key, rs: seq<Range>) {
    && Canonical(rs)
    && forall q :: Has(rs, q) <==> q != 0 && exists e :: e in log && OfSession(e, key) && e.sequence == q
  }

  lemma SequencesGrow(log: seq<Event>, key: Key, rs: seq<Range>, e: Event)
    requires SequencesFrom(log, key, rs)
    ensures SequencesFrom(log + [e], key, if OfSession(e, key) then Insert(rs, e.sequence) else rs)
  {
    InSnoc(log, e);
    InsertReceives(rs, e.sequence);
    hide Insert, Canonical, Has;
    var after := if OfSession(e, key) then Insert(rs, e.sequence) else rs;
    forall q ensures Has(after, q) <==> q != 0 && exists x :: x in log + [e] && OfSession(x, key) && x.sequence == q {
      if q != 0 && Has(rs, q) {
        var x :| x in log && OfSession(x, key) && x.sequence == q;
        assert x in log + [e];
      }
    }
  }

  lemma SessionGrows(log: seq<Event>, key: Key, s: Session, e: Event)
    requires SessionFrom(log, key, s)
    ensures SessionFrom(log + [e], key, if OfSession(e, key) then SessionStep(s, e) else s)
  {
    InSnoc(log, e);
    InSnoc(s.proofs, e);
    SequencesGrow(log, key, s.sequences, e);
    hide Insert, SequencesFrom;
    var t := if OfSession(e, key) then SessionStep(s, e) else s;
    assert t.invalid <==> exists x :: x in log + [e] && OfSession(x, key) && x.sequence == 0 by {
      if s.invalid {
        var x :| x in log && OfSession(x, key) && x.sequence == 0;
        assert x in log + [e];
      }
    }
  }

  lemma ReceiptsGrow(log: seq<Event>, m: MessageKey, k: Key, r: Receipts, e: Event)
    requires ReceiptsFrom(log, m, k, r)
    ensures ReceiptsFrom(log + [e], m, k, if ReceivedAs(e, m, k) then ReceiptStep(r, e) else r)
  {
    forall x ensures multiset(log + [e])[x] == multiset(log)[x] + if x == e then 1 else 0 { }
  }

  lemma SessionsGrow(log: seq<Event>, w: Window, e: Event)
    requires Reflects(log, w) && !e.kind.Terminated?
    ensures var v := WindowAfter(w, e);
      && (forall key :: key in v.sessions <==> exists x :: x in log + [e] && OfSession(x, key))
      && (forall key :: SessionFrom(log + [e], key, Get(v.sessions, key, NEW_SESSION)))
  {
    hide SessionFrom, ReceiptsFrom;
    var v := WindowAfter(w, e);
    InSnoc(log, e);
    forall key ensures SessionFrom(log + [e], key, Get(v.sessions, key, NEW_SESSION)) {
      SessionGrows(log, key, Get(w.sessions, key, NEW_SESSION), e);
    }
    forall key ensures key in v.sessions <==> exists x :: x in log + [e] && OfSession(x, key) {
      if key in w.sessions {
        var x :| x in log && OfSession(x, key);
        assert x in log + [e];
      }
    }
  }

  lemma ReceiptsAllGrow(log: seq<Event>, w: Window, e: Event)
    requires Reflects(log, w)
    ensures forall m, k :: ReceiptsFrom(log + [e], m, k, ReceiptsOf(WindowAfter(w, e), Pair(m, k)))
  {
    hide SessionFrom, ReceiptsFrom;
    forall m, k ensures ReceiptsFrom(log + [e], m, k, ReceiptsOf(WindowAfter(w, e), Pair(m, k))) {
      ReceiptsGrow(log, m, k, ReceiptsOf(w, Pair(m, k)), e);
    }
  }

  lemma RestGrows(log: seq<Event>, w: Window, e: Event)
    requires Reflects(log, w)
    ensures var v := WindowAfter(w, e);
      && (forall m :: m in v.publications ==> exists x :: x in log + [e] && Announces(x) && MessageOf(x) == m && v.publications[m] == PublicationOf(x))
      && (forall x :: x in log + [e] && Announces(x) ==> MessageOf(x) in v.publications)
  {
    hide SessionFrom, ReceiptsFrom, PublicationOf;
    var v := WindowAfter(w, e);
    InSnoc(log, e);
    forall m | m in v.publications
      ensures exists x :: x in log + [e] && Announces(x) && MessageOf(x) == m && v.publications[m] == PublicationOf(x)
    {
      if m in w.publications {
        var x :| x in log && Announces(x) && MessageOf(x) == m && w.publications[m] == PublicationOf(x);
        assert x in log + [e];
      } else {
        assert e in log + [e];
      }
    }
  }

  lemma TerminationsGrow(log: seq<Event>, w: Window, e: Event)
    requires Reflects(log, w)
    ensures var v := WindowAfter(w, e);
      && (forall node, x :: x in Terminations(v, node) <==> x in log + [e] && Removes(x) && x.node == node)
      && (v.incomplete <==> exists x :: x in log + [e] && Unattributed(x))
  {
    hide SessionFrom, ReceiptsFrom, PublicationOf;
    var v := WindowAfter(w, e);
    InSnoc(log, e);
    InSnoc(Terminations(w, e.node), e);
    assert forall node :: Terminations(v, node) == if Removes(e) && node == e.node then Terminations(w, node) + [e] else Terminations(w, node);
    if w.incomplete {
      var x :| x in log && Unattributed(x);
      assert x in log + [e];
    }
  }

  /** The window is a function of the accepted events, component by component. */
  lemma {:induction false} WindowReflects(log: seq<Event>)
    ensures Reflects(log, WindowOf(log))
  {
    NothingReflects();
    hide Reflects, WindowAfter;
    if log != [] {
      var before, e := log[..|log| - 1], log[|log| - 1];
      WindowReflects(before);
      WindowGrows(before, WindowOf(before), e);
      assert before + [e] == log;
    }
  }

  lemma NothingReflects()
    ensures Reflects([], EMPTY)
  {
  }

  lemma WindowGrows(log: seq<Event>, w: Window, e: Event)
    requires Reflects(log, w)
    ensures Reflects(log + [e], WindowAfter(w, e))
  {
    hide SessionFrom, ReceiptsFrom, PublicationOf;
    ReceiptsAllGrow(log, w, e);
    RestGrows(log, w, e);
    TerminationsGrow(log, w, e);
    if !e.kind.Terminated? {
      SessionsGrow(log, w, e);
    } else {
      InSnoc(log, e);
      forall key ensures SessionFrom(log + [e], key, Get(w.sessions, key, NEW_SESSION)) {
        SessionGrows(log, key, Get(w.sessions, key, NEW_SESSION), e);
      }
    }
  }

  // ------------------------------------------------------ order of arrival

  // Each message is announced once.
  ghost predicate OnePublish(events: set<Event>) {
    forall e, f :: e in events && f in events && Announces(e) && Announces(f) && MessageOf(e) == MessageOf(f) ==> e == f
  }

  ghost predicate SameWindow(a: Window, b: Window) {
    && (forall key :: Effective(a, key) == Effective(b, key))
    && a.publications == b.publications
    && (forall pair :: SameReceipts(ReceiptsOf(a, pair), ReceiptsOf(b, pair)))
  }

  lemma ElementsIn(a: seq<Event>, b: seq<Event>)
    requires Elements(a) == Elements(b)
    ensures forall e :: e in a <==> e in b
  {
    assert forall e :: e in a <==> e in Elements(a);
    assert forall e :: e in b <==> e in Elements(b);
  }

  lemma InElements(a: seq<Event>, b: seq<Event>)
    requires forall e :: e in a <==> e in b
    ensures Elements(a) == Elements(b)
  {
  }

  lemma SameEvaluation(a: seq<Event>, b: seq<Event>, key: Key, s: Session, t: Session)
    requires Elements(a) == Elements(b) && Coherent(Elements(a))
    requires SessionFrom(a, key, s) && SessionFrom(b, key, t)
    ensures Evaluate(s) == Evaluate(t)
  {
    ElementsIn(a, b);
    assert forall e :: e in a ==> e in Elements(a);
    assert s.invalid == t.invalid;
    if !s.invalid {
      assert forall e :: e in a && OfSession(e, key) ==> IdentityOf(e) == Some(Sequenced(key.node, key.session, e.sequence));
      assert s.start == t.start;
      assert s.stop == t.stop;
      forall q ensures Has(s.sequences, q) <==> Has(t.sequences, q) { }
      CanonicalIsUnique(s.sequences, t.sequences);
      InElements(s.proofs, t.proofs);
      SameSessionEvaluates(s, t);
    }
  }

  lemma SameEffective(a: seq<Event>, b: seq<Event>, v: Window, w: Window, key: Key)
    requires Elements(a) == Elements(b) && Coherent(Elements(a)) && Reflects(a, v) && Reflects(b, w)
    ensures Effective(v, key) == Effective(w, key)
  {
    SameSessions(a, b, v, w, key);
    SameTerminations(a, b, v, w, key.node);
    hide Reflects, Evaluate, Elements, CutAll;
    if key in v.sessions {
      if Evaluate(v.sessions[key]).Some? {
        CutAllAgrees(Evaluate(v.sessions[key]).value, Terminations(v, key.node), Terminations(w, key.node));
      }
    }
  }

  lemma SameSessions(a: seq<Event>, b: seq<Event>, v: Window, w: Window, key: Key)
    requires Elements(a) == Elements(b) && Coherent(Elements(a)) && Reflects(a, v) && Reflects(b, w)
    ensures key in v.sessions <==> key in w.sessions
    ensures key in v.sessions ==> Evaluate(v.sessions[key]) == Evaluate(w.sessions[key])
  {
    hide SessionFrom, ReceiptsFrom, Evaluate;
    ElementsIn(a, b);
    assert key in v.sessions <==> key in w.sessions;
    SameEvaluation(a, b, key, Get(v.sessions, key, NEW_SESSION), Get(w.sessions, key, NEW_SESSION));
  }

  lemma SameTerminations(a: seq<Event>, b: seq<Event>, v: Window, w: Window, node: ID)
    requires Elements(a) == Elements(b) && Reflects(a, v) && Reflects(b, w)
    ensures Elements(Terminations(v, node)) == Elements(Terminations(w, node))
  {
    hide SessionFrom, ReceiptsFrom;
    ElementsIn(a, b);
    forall e ensures e in Terminations(v, node) <==> e in Terminations(w, node) {
      assert e in Terminations(v, node) <==> e in a && Removes(e) && e.node == node;
      assert e in Terminations(w, node) <==> e in b && Removes(e) && e.node == node;
    }
    InElements(Terminations(v, node), Terminations(w, node));
  }

  lemma SamePublications(a: seq<Event>, b: seq<Event>, v: Window, w: Window)
    requires Elements(a) == Elements(b) && OnePublish(Elements(a)) && Reflects(a, v) && Reflects(b, w)
    ensures v.publications == w.publications
  {
    hide SessionFrom, ReceiptsFrom, PublicationOf;
    ElementsIn(a, b);
    assert forall e :: e in a ==> e in Elements(a);
    forall m ensures m in v.publications <==> m in w.publications { }
    forall m | m in v.publications ensures v.publications[m] == w.publications[m] {
      var e :| e in a && Announces(e) && MessageOf(e) == m && v.publications[m] == PublicationOf(e);
      var f :| f in b && Announces(f) && MessageOf(f) == m && w.publications[m] == PublicationOf(f);
      assert e == f;
    }
  }

  lemma SameWindows(a: seq<Event>, b: seq<Event>, v: Window, w: Window)
    requires multiset(a) == multiset(b) && Coherent(Elements(a)) && OnePublish(Elements(a)) && Reflects(a, v) && Reflects(b, w)
    ensures SameWindow(v, w)
  {
    hide SessionFrom, Effective, SameReceipts;
    SameMembers(a, b);
    InElements(a, b);
    forall key ensures Effective(v, key) == Effective(w, key) { SameEffective(a, b, v, w, key); }
    SamePublications(a, b, v, w);
    forall pair ensures SameReceipts(ReceiptsOf(v, pair), ReceiptsOf(w, pair)) {
      SameReceiptsFrom(a, b, pair.publication, pair.session, ReceiptsOf(v, pair), ReceiptsOf(w, pair));
    }
  }

  lemma SameReceiptsFrom(a: seq<Event>, b: seq<Event>, m: MessageKey, k: Key, r: Receipts, t: Receipts)
    requires multiset(a) == multiset(b) && ReceiptsFrom(a, m, k, r) && ReceiptsFrom(b, m, k, t)
    ensures SameReceipts(r, t)
  {
  }

  ghost predicate AllTiesAgree(w: Window) {
    forall pair, p, v :: TiesAgree(ReceiptsOf(w, pair).deliveries, p, v)
  }

  lemma SameWindowSameCounts(v: Window, w: Window, asOf: Time, c: Column)
    requires SameWindow(v, w) && (Sampling(c) ==> AllTiesAgree(v))
    ensures Count(v, Candidates(v, asOf), c) == Count(w, Candidates(w, asOf), c)
  {
    hide Effective, SameReceipts, TiesAgree, Falls, Candidate;
    assert Candidates(v, asOf) == Candidates(w, asOf) by { SameCandidates(v, w, asOf); SameCandidates(w, v, asOf); }
    var pairs := Candidates(v, asOf);
    forall pair ensures Falls(v, pair, c) == Falls(w, pair, c) { SameFalls(v, w, pair, c); }
    assert (set p | p in pairs && Falls(v, p, c)) == (set p | p in pairs && Falls(w, p, c));
  }

  lemma {:induction false} SameWindowSameDuplicates(v: Window, w: Window, pairs: set<Pair>)
    requires SameWindow(v, w)
    ensures Duplicates(v, pairs) == Duplicates(w, pairs)
  {
    hide Effective, SameReceipts, Falls, PairDuplicates;
    if pairs != {} {
      var p :| p in pairs;
      DuplicatesWithout(v, pairs, p);
      DuplicatesWithout(w, pairs, p);
      SamePairDuplicates(v, w, p);
      SameWindowSameDuplicates(v, w, pairs - {p});
    }
  }

  // Equal windows have equal totals; the sampling columns need the ties to agree.
  lemma SameWindowSameTotals(v: Window, w: Window, asOf: Time, m: Counts, n: Counts)
    requires SameWindow(v, w) && Totals(v, Candidates(v, asOf), m) && Totals(w, Candidates(w, asOf), n)
    ensures m.(sampled := 0, invalid := 0) == n.(sampled := 0, invalid := 0)
    ensures AllTiesAgree(v) ==> m == n
  {
    hide Effective, SameReceipts, TiesAgree, Falls, Candidates, Count, Duplicates, AllTiesAgree;
    forall c | !Sampling(c) || AllTiesAgree(v) ensures Value(m, c) == Value(n, c) { SameWindowSameCounts(v, w, asOf, c); }
    SameWindowSameDuplicates(v, w, Candidates(v, asOf));
    assert Candidates(v, asOf) == Candidates(w, asOf) by { SameCandidates(v, w, asOf); SameCandidates(w, v, asOf); }
    ValuesAreCounts(m, n);
  }

  lemma SameCandidates(v: Window, w: Window, asOf: Time)
    requires v.publications == w.publications && forall key :: Effective(v, key) == Effective(w, key)
    ensures Candidates(v, asOf) <= Candidates(w, asOf)
  {
    hide Evaluate, CutAll;
    forall p | p in Candidates(v, asOf) ensures p in Candidates(w, asOf) {
      assert Effective(v, p.session) == Effective(w, p.session);
    }
  }

  lemma SameFalls(v: Window, w: Window, pair: Pair, c: Column)
    requires SameWindow(v, w) && (Sampling(c) ==> AllTiesAgree(v))
    ensures Falls(v, pair, c) == Falls(w, pair, c)
  {
    hide Effective, Inspect;
    if pair.publication in v.publications && Effective(v, pair.session).Some? {
      var p, s := v.publications[pair.publication], Effective(v, pair.session).value;
      SameReceiptsInspect(ReceiptsOf(v, pair), ReceiptsOf(w, pair), p, s);
    }
  }

  lemma SamePairDuplicates(v: Window, w: Window, pair: Pair)
    requires SameWindow(v, w)
    ensures PairDuplicates(v, pair) == PairDuplicates(w, pair)
  {
    hide Effective, In, CountsFor;
    SameFalls(v, w, pair, Eligible);
    if pair.publication in v.publications && Effective(v, pair.session).Some? {
      var p, s := v.publications[pair.publication], Effective(v, pair.session).value;
      NumberAgrees(ReceiptsOf(v, pair).duplicates, ReceiptsOf(w, pair).duplicates, CountsFor(p, s));
    }
  }

  // Two deliveries of one message in one session at the same time.
  predicate Tie(e: Event, f: Event) {
    e.kind.Deliver? && f.kind.Deliver? && MessageOf(e) == MessageOf(f) && ReceiptKey(e) == ReceiptKey(f) && e.at == f.at
  }

  // Deliveries that tie are worth the same.
  ghost predicate Tieless(events: set<Event>) {
    forall e, f :: e in events && f in events && Tie(e, f) ==> QualityOf(e.latency) == QualityOf(f.latency)
  }

  lemma TielessAgrees(log: seq<Event>, w: Window)
    requires Tieless(Elements(log)) && Reflects(log, w)
    ensures AllTiesAgree(w)
  {
    hide SessionFrom, ReceiptsFrom, TiesAgree;
    forall pair, p, v ensures TiesAgree(ReceiptsOf(w, pair).deliveries, p, v) {
      TielessReceipts(log, pair.publication, pair.session, ReceiptsOf(w, pair), p, v);
    }
  }

  lemma TielessReceipts(log: seq<Event>, m: MessageKey, k: Key, r: Receipts, p: Publication, v: Evaluated)
    requires Tieless(Elements(log)) && ReceiptsFrom(log, m, k, r)
    ensures TiesAgree(r.deliveries, p, v)
  {
    hide Judge;
    forall e, f | Earliest(r.deliveries, p, v, e) && Earliest(r.deliveries, p, v, f) ensures QualityOf(e.latency) == QualityOf(f.latency) {
      assert multiset(r.deliveries)[e] > 0 && multiset(r.deliveries)[f] > 0;
      assert multiset(log)[e] > 0 && multiset(log)[f] > 0;
      assert e in Elements(log) && f in Elements(log) && Tie(e, f);
    }
  }

  /** Main result: any reordering of the same events, those with an identity repeated any
      number of times, gives the same cohort, delivery and duplicate totals if every message
      is announced once; the number of latency samples, valid and invalid, is also the same
      if no two deliveries tie with different worth. */
  lemma OrderIsInvisible(a: seq<Event>, b: seq<Event>, asOf: Time, m: Counts, n: Counts)
    requires Rearranged(a, b) && Coherent(Elements(a)) && OnePublish(Elements(a))
    requires Totals(WindowOf(Accepted(a)), Candidates(WindowOf(Accepted(a)), asOf), m)
    requires Totals(WindowOf(Accepted(b)), Candidates(WindowOf(Accepted(b)), asOf), n)
    ensures m.(sampled := 0, invalid := 0) == n.(sampled := 0, invalid := 0)
    ensures Tieless(Elements(a)) ==> m == n
  {
    hide Totals, Candidates, Reflects, WindowOf, SameWindow, Tieless, AllTiesAgree;
    AcceptedAgree(a, b);
    WindowReflects(Accepted(a));
    WindowReflects(Accepted(b));
    SameWindows(Accepted(a), Accepted(b), WindowOf(Accepted(a)), WindowOf(Accepted(b)));
    SameWindowSameTotals(WindowOf(Accepted(a)), WindowOf(Accepted(b)), asOf, m, n);
    if Tieless(Elements(a)) { TielessAgrees(Accepted(a), WindowOf(Accepted(a))); }
  }

  // ----------------------------------------------------------------- counters

  ghost function OfKind(kind: Kind): Event -> bool { (e: Event) => e.kind == kind }

  ghost function Unnamed(): Event -> bool { (e: Event) => e.kind.Publish? && e.message == NO_ID }

  ghost function MessagesOf(log: seq<Event>): set<MessageKey> {
    set e | e in log && e.kind.Publish? && e.message != NO_ID :: MessageOf(e)
  }

  /** The event counters, too, do not depend on the order of the accepted events. */
  ghost predicate Counted(log: seq<Event>, published: nat, delivered: nat, duplicates: nat) {
    && published == Number(log, Unnamed()) + |MessagesOf(log)|
    && delivered == Number(log, OfKind(Deliver)) && duplicates == Number(log, OfKind(Duplicate))
  }

  lemma CountersAreDetermined(a: seq<Event>, b: seq<Event>, published: nat, delivered: nat, duplicates: nat)
    requires Rearranged(a, b) && Coherent(Elements(a)) && Counted(Accepted(a), published, delivered, duplicates)
    ensures Counted(Accepted(b), published, delivered, duplicates)
  {
    AcceptedAgree(a, b);
    SameMembers(Accepted(a), Accepted(b));
    assert MessagesOf(Accepted(a)) == MessagesOf(Accepted(b));
    NumberAgrees(Accepted(a), Accepted(b), Unnamed());
    NumberAgrees(Accepted(a), Accepted(b), OfKind(Deliver));
    NumberAgrees(Accepted(a), Accepted(b), OfKind(Duplicate));
  }

  // ------------------------------------------------------------ identity index

  // The two indexes know exactly the identities of the accepted events.
  ghost predicate Indexes(log: seq<Event>, sequences: map<Key, seq<Range>>, seen: set<(ID, ID)>) {
    && (forall key :: IndexesSession(log, key, Get(sequences, key, [])))
    && (forall node: ID, id: ID :: (node, id) in seen <==> exists e :: e in log && IdentityOf(e) == Some(Named(node, id)))
  }

  ghost predicate IndexesSession(log: seq<Event>, key: Key, rs: seq<Range>) {
    Canonical(rs) && forall q :: q != 0 && key.session != NO_ID ==>
      (Has(rs, q) <==> exists e :: e in log && IdentityOf(e) == Some(Sequenced(key.node, key.session, q)))
  }

  lemma IndexGrows(log: seq<Event>, key: Key, rs: seq<Range>, e: Event)
    requires IndexesSession(log, key, rs)
    ensures IndexesSession(log + [e], key,
      if e.session != NO_ID && e.sequence > 0 && key == Key(e.node, e.session) then Insert(rs, e.sequence) else rs)
  {
    InSnoc(log, e);
    InsertReceives(rs, e.sequence);
    var after := if e.session != NO_ID && e.sequence > 0 && key == Key(e.node, e.session) then Insert(rs, e.sequence) else rs;
    forall q | q != 0 && key.session != NO_ID
      ensures Has(after, q) <==> exists x :: x in log + [e] && IdentityOf(x) == Some(Sequenced(key.node, key.session, q))
    {
      if Has(rs, q) {
        var x :| x in log && IdentityOf(x) == Some(Sequenced(key.node, key.session, q));
        assert x in log + [e];
      }
      if IdentityOf(e) == Some(Sequenced(key.node, key.session, q)) { assert e in log + [e]; }
    }
  }

  class Accumulator {
    var sequences: map<Key, seq<Range>>
    var seen: set<(ID, ID)>
    var published: nat
    var delivered: nat
    var duplicates: nat
    var announced: set<MessageKey>
    var window: Window
    ghost var arrivals: seq<Event>

    ghost predicate Valid()
      reads this
    {
      && Indexes(Accepted(arrivals), sequences, seen)
      && window == WindowOf(Accepted(arrivals))
      && announced == MessagesOf(Accepted(arrivals))
      && Counted(Accepted(arrivals), published, delivered, duplicates)
    }

    constructor ()
      ensures Valid() && arrivals == []
    {
      sequences, seen, published, delivered, duplicates, announced := map[], {}, 0, 0, 0, {};
      window, arrivals := EMPTY, [];
    }

    method HasEvent(e: Event) returns (known: bool)
      requires Valid()
      ensures known <==> Repeats(Accepted(arrivals), e)
    {
      if e.session != NO_ID && e.sequence > 0 {
        var rs := Get(sequences, Key(e.node, e.session), []);
        assert IndexesSession(Accepted(arrivals), Key(e.node, e.session), rs);
        ThroughOfIs(rs, e.sequence);
        return ThroughOf(rs, e.sequence) != 0;
      }
      known := e.id != NO_ID && (e.node, e.id) in seen;
    }

    /** One arrival: a repetition changes nothing, anything else is accounted for once. */
    method Observe(e: Event) returns (accepted: bool)
      requires Valid()
      modifies this
      ensures Valid() && arrivals == old(arrivals) + [e]
      ensures accepted <==> !exists x :: x in old(arrivals) && SameEvent(x, e)
      ensures accepted ==> Arrives(old(window), e, window)
      ensures accepted ==> delivered == old(delivered) + (if e.kind.Deliver? then 1 else 0)
      ensures accepted ==> duplicates == old(duplicates) + (if e.kind.Duplicate? then 1 else 0)
      ensures accepted ==> announced == old(announced) + (if e.kind.Publish? && e.message != 0 then {MessageKey(e.topic, e.message)} else {})
      ensures accepted ==> published == old(published)
                             + (if e.kind.Publish? && (e.message == 0 || MessageKey(e.topic, e.message) !in old(announced)) then 1 else 0)
      ensures !accepted ==> window == old(window) && announced == old(announced)
      ensures !accepted ==> published == old(published) && delivered == old(delivered) && duplicates == old(duplicates)
    {
      WindowAfterMeans(window, e);
      RepeatsMeans(arrivals, e);
      hide Arrives, Reflects, Indexes, Counted, MessagesOf, WindowAfter, Repeats, SameEvent, Number;
      var known := HasEvent(e);
      ghost var log := Accepted(arrivals);
      arrivals := arrivals + [e];
      assert arrivals[..|arrivals| - 1] == old(arrivals);
      if known { return false; }
      Remember(e, log);
      window := WindowAfter(window, e);
      assert (log + [e])[..|log|] == log;
      CountEvent(e, log);
      accepted := true;
    }

    // A message counts as published once, unnamed publications each.
    method CountEvent(e: Event, ghost log: seq<Event>)
      requires announced == MessagesOf(log) && Counted(log, published, delivered, duplicates)
      modifies this`published, this`delivered, this`duplicates, this`announced
      ensures announced == MessagesOf(log + [e])
      ensures Counted(log + [e], published, delivered, duplicates)
      ensures delivered == old(delivered) + (if e.kind.Deliver? then 1 else 0)
      ensures duplicates == old(duplicates) + (if e.kind.Duplicate? then 1 else 0)
      ensures announced == old(announced) + (if e.kind.Publish? && e.message != 0 then {MessageKey(e.topic, e.message)} else {})
      ensures published == old(published)
                             + (if e.kind.Publish? && (e.message == 0 || MessageKey(e.topic, e.message) !in old(announced)) then 1 else 0)
    {
      hide MessagesOf;
      MessagesStep(log, e);
      NumberStep(log, e, OfKind(Deliver));
      NumberStep(log, e, OfKind(Duplicate));
      NumberStep(log, e, Unnamed());
      match e.kind
      case Publish =>
        if e.message == NO_ID {
          published := published + 1;
        } else if MessageOf(e) !in announced {
          published, announced := published + 1, announced + {MessageOf(e)};
        }
      case Deliver => delivered := delivered + 1;
      case Duplicate => duplicates := duplicates + 1;
      case _ =>
    }

    method Remember(e: Event, ghost log: seq<Event>)
      requires Indexes(log, sequences, seen) && !Repeats(log, e)
      modifies this`sequences, this`seen
      ensures Indexes(log + [e], sequences, seen)
    {
      hide IndexesSession;
      ghost var before := sequences;
      InSnoc(log, e);
      if e.session != NO_ID && e.sequence > 0 {
        var key := Key(e.node, e.session);
        sequences := sequences[key := Insert(Get(sequences, key, []), e.sequence)];
      } else if e.id != NO_ID {
        seen := seen + {(e.node, e.id)};
      }
      forall key ensures IndexesSession(log + [e], key, Get(sequences, key, [])) {
        IndexGrows(log, key, Get(before, key, []), e);
      }
      forall node: ID, id: ID ensures (node, id) in seen <==> exists x :: x in log + [e] && IdentityOf(x) == Some(Named(node, id)) {
        if exists x :: x in log && IdentityOf(x) == Some(Named(node, id)) {
          var x :| x in log && IdentityOf(x) == Some(Named(node, id));
          assert x in log + [e];
        }
      }
    }

    /** The totals of everything observed so far. */
    method Report(asOf: Time) returns (n: Counts)
      requires Valid()
      ensures Totals(WindowOf(Accepted(arrivals)), Candidates(WindowOf(Accepted(arrivals)), asOf), n) && Balanced(n)
    {
      n := Summarize(window, asOf);
    }
  }

  lemma MessagesStep(log: seq<Event>, e: Event)
    ensures MessagesOf(log + [e]) == if e.kind.Publish? && e.message != NO_ID then MessagesOf(log) + {MessageOf(e)} else MessagesOf(log)
  {
    InSnoc(log, e);
    if e.kind.Publish? && e.message != NO_ID { assert e in log + [e]; }
  }
}
