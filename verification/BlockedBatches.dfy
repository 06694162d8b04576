/** Which batches the spool refuses for good. A confirmed batch is acknowledged segment by
    segment; one segment whose next unacknowledged event is not in the batch, while a later
    one is, can never be settled by that batch.
 */
module BlockedBatches {
  import opened Model
  import opened TelemetrySpool

  // The k-th pending reference of its event, and the batch carries the event more than k times.
  ghost predicate ReachedAt(pending: seq<Ref>, batch: seq<Event>, r: Ref, k: nat) {
    k < |Keep(pending, ByEvent(r.event))| && Keep(pending, ByEvent(r.event))[k] == r && k < multiset(batch)[r.event]
  }

  ghost predicate Reaches(pending: seq<Ref>, batch: seq<Event>, n: nat) {
    exists r: Ref, k: nat :: r.segment == n && ReachedAt(pending, batch, r, k)
  }

  /** The batch stands for an event of segment n, but not for the first one pending there. */
  ghost predicate Blocked(pending: seq<Ref>, batch: seq<Event>, n: nat) {
    && Reaches(pending, batch, n)
    && Keep(pending, BySegment(n)) != [] && Keep(pending, BySegment(n))[0].event !in batch
  }

  // --------------------------------------------------------------- refused

  predicate Picked(selected: map<nat, seq<nat>>, r: Ref) { r.segment in selected && r.index in selected[r.segment] }

  lemma PickKeeps(selected: map<nat, seq<nat>>, r: Ref, s: Ref)
    ensures Picked(Pick(selected, s), r) <==> Picked(selected, r) || (r.segment == s.segment && r.index == s.index)
  {
  }

  // The selection takes the first references of each event, as often as the batch has it.
  lemma {:induction false} SelectionReaches(refs: map<Event, seq<Ref>>, batch: seq<Event>, e: Event)
    ensures Used(Selected(refs, batch).0, e) == MinInt(multiset(batch)[e], |Listed(refs, e)|)
    ensures forall k :: 0 <= k < Used(Selected(refs, batch).0, e) ==> Picked(Selected(refs, batch).1, Listed(refs, e)[k])
  {
    hide Pick, Picked;
    if batch != [] {
      var was, last := batch[..|batch| - 1], batch[|batch| - 1];
      OneMore(was, last, e);
      assert batch == was + [last];
      SelectionReaches(refs, was, e);
      var (used, selected) := Selected(refs, was);
      var n := Used(used, last);
      if n < |Listed(refs, last)| {
        PickKeeps(selected, Listed(refs, last)[n], Listed(refs, last)[n]);
        forall k | 0 <= k < Used(used, e) ensures Picked(Pick(selected, Listed(refs, last)[n]), Listed(refs, e)[k]) {
          PickKeeps(selected, Listed(refs, e)[k], Listed(refs, last)[n]);
        }
      }
    }
  }

  lemma OneMore(was: seq<Event>, last: Event, e: Event)
    ensures multiset(was + [last])[e] == multiset(was)[e] + if e == last then 1 else 0
  {
  }

  lemma GaplessStarts(ack: nat, indices: seq<nat>)
    ensures Gapless(ack, indices) && indices != [] ==> ack in indices
  {
    SortMembers(indices);
    assert indices != [] ==> Run(ack, |indices|)[0] == ack;
  }

  /** A blocked batch is out of order, whatever else it contains. */
  lemma BlockedIsRefused(refs: map<Event, seq<Ref>>, segments: map<nat, Segment>, pending: seq<Ref>, batch: seq<Event>, n: nat)
    requires Tracked(refs, segments, pending) && Blocked(pending, batch, n)
    ensures var selected := Selected(refs, batch).1;
      n in segments && n in selected && !Gapless(segments[n].ack, selected[n]) && !InOrder(segments, selected)
  {
    hide Keep;
    var selected := Selected(refs, batch).1;
    var r: Ref, k: nat :| r.segment == n && ReachedAt(pending, batch, r, k);
    assert ListedAs(refs, pending, r.event);
    SelectionReaches(refs, batch, r.event);
    SelectedIsChosen(refs, segments, pending, batch, batch);
    assert Chosen(segments, batch, n, selected[n]);
    assert TailOf(segments[n], pending, n);
    var ack := segments[n].ack;
    assert Keep(pending, BySegment(n))[0] == Ref(n, ack, segments[n].keys[ack]);
    assert ack !in selected[n];
    GaplessStarts(ack, selected[n]);
  }

  // ---------------------------------------------------------------- for good

  lemma KeepPosition(rs: seq<Ref>, p: Ref -> bool, k: nat) returns (j: nat)
    requires k < |rs| && p(rs[k])
    ensures j <= k && j < |Keep(rs, p)| && Keep(rs, p)[j] == rs[k]
  {
    hide Keep;
    var front, back := rs[..k], rs[k + 1..];
    assert rs == front + [rs[k]] + back;
    KeepConcat(front + [rs[k]], back, p);
    KeepConcat(front, [rs[k]], p);
    KeepOne(rs[k], p);
    j := |Keep(front, p)|;
    KeepShorter(front, p);
  }

  lemma {:induction false} KeepShorter(rs: seq<Ref>, p: Ref -> bool)
    ensures |Keep(rs, p)| <= |rs|
  {
    if rs != [] { KeepShorter(rs[..|rs| - 1], p); }
  }

  /** Settling other segments does not unblock it. */
  lemma BlockedAfterSettling(pending: seq<Ref>, batch: seq<Event>, n: nat, gone: set<Ref>)
    requires Blocked(pending, batch, n) && forall r :: r in gone ==> r.segment != n
    ensures Blocked(Keep(pending, NotIn(gone)), batch, n)
  {
    hide Keep;
    KeepUntouched(pending, BySegment(n), gone);
    var r: Ref, k: nat :| r.segment == n && ReachedAt(pending, batch, r, k);
    KeepCommutes(pending, ByEvent(r.event), NotIn(gone));
    var j := KeepPosition(Keep(pending, ByEvent(r.event)), NotIn(gone), k);
    assert ReachedAt(Keep(pending, NotIn(gone)), batch, r, j);
  }

  /** What an attempt settles of the other segments leaves it blocked. */
  lemma BlockedAfterAttempt(refs: map<Event, seq<Ref>>, segments: map<nat, Segment>, pending: seq<Ref>, batch: seq<Event>, n: nat, settled: set<nat>)
    requires Tracked(refs, segments, pending) && Blocked(pending, batch, n)
    requires AllGapless(segments, Selected(refs, batch).1, settled)
    ensures Blocked(Keep(pending, NotIn(Fronts(segments, Selected(refs, batch).1, settled))), batch, n)
  {
    BlockedIsRefused(refs, segments, pending, batch, n);
    hide Keep, Tracked, Blocked, Gapless, Selected;
    BlockedAfterSettling(pending, batch, n, Fronts(segments, Selected(refs, batch).1, settled));
  }

  /** Nor does appending new segments. */
  lemma BlockedAfterAppend(pending: seq<Ref>, batch: seq<Event>, n: nat, added: seq<Ref>)
    requires Blocked(pending, batch, n) && forall r :: r in added ==> r.segment != n
    ensures Blocked(pending + added, batch, n)
  {
    hide Keep;
    KeepConcat(pending, added, BySegment(n));
    KeepNone(added, BySegment(n));
    var r: Ref, k: nat :| r.segment == n && ReachedAt(pending, batch, r, k);
    KeepConcat(pending, added, ByEvent(r.event));
    assert ReachedAt(pending + added, batch, r, k);
  }
}
