/** Admission of runs to a group: start, append, resume and retry all journal their intent
    in the group's record, prepare result directories, and commit by rewriting the record.
    Readers see the group through the record, which hides uncommitted runs.
 */
module BatchAdmission {
  import opened Model

  const MAX_REPETITIONS: nat := 100

  datatype RunState = Queued | Running | Completed | FailedRun | Canceled

  // One experiment.json: `previous` are the attempts this one retries.
  datatype Run = Run(iteration: nat, total: nat, state: RunState, started: bool, previous: seq<ID>)

  datatype Record = Record(
    repetitions: nat, pending: seq<ID>, pendingTotal: nat, before: map<ID, Run>, retired: set<ID>, current: map<nat, ID>)

  // A result directory may still be without metadata. A deletion is committed by its marker.
  datatype Disk = Disk(runs: map<ID, Option<Run>>, record: Option<Record>, deleted: set<ID>)

  datatype Member = Member(run: Run, superseded: bool)

  // ---------------------------------------------------------- logical view

  // What a result directory holds once recovery has undone the pending admission.
  function Restored(d: Disk, id: ID): Option<Run> {
    if id !in d.runs then None
    else if d.record.None? || id !in d.record.value.pending then d.runs[id]
    else if id in d.record.value.before then Some(d.record.value.before[id])
    else None
  }

  // The record supplies the committed total, and a file beyond it is not readable.
  function Projected(record: Option<Record>, id: ID, run: Run): Option<Member> {
    if record.None? then Some(Member(run, false))
    else if 1 <= run.total <= record.value.repetitions
      then Some(Member(run.(total := record.value.repetitions), id in record.value.retired))
    else None
  }

  // A member of the group as it stands after recovery.
  function Logical(d: Disk, id: ID): Option<Member> {
    if id in d.deleted || Restored(d, id).None? then None
    else Projected(d.record, id, Restored(d, id).value)
  }

  // A member as a reader sees it now: pending runs are hidden.
  function Visible(d: Disk, id: ID): Option<Member> {
    if d.record.Some? && id in d.record.value.pending then None else Logical(d, id)
  }

  ghost predicate SameView(d: Disk, e: Disk) { forall id :: Logical(d, id) == Logical(e, id) }

  ghost predicate Lists(d: Disk, other: ID, id: ID) {
    Logical(d, other).Some? && other != id && id in Logical(d, other).value.run.previous
  }

  // The latest attempt of its iteration.
  ghost predicate Current(d: Disk, id: ID) {
    Logical(d, id).Some? && !Logical(d, id).value.superseded && forall other :: !Lists(d, other, id)
  }

  ghost predicate Attempts(d: Disk, a: ID, b: ID) {
    && Logical(d, a).Some? && Logical(d, b).Some? && a != b
    && Logical(d, a).value.run.iteration == Logical(d, b).value.run.iteration
  }

  // ------------------------------------------------------------- invariant

  // Of two attempts of one iteration, one is listed as retried by the other.
  ghost predicate Chained(d: Disk) {
    forall a, b :: Attempts(d, a, b) ==> Lists(d, a, b) || Lists(d, b, a)
  }

  /** At most one attempt of an iteration is current. */
  lemma OneCurrentAttempt(d: Disk, a: ID, b: ID)
    requires Chained(d) && Current(d, a) && Current(d, b)
    requires Logical(d, a).value.run.iteration == Logical(d, b).value.run.iteration
    ensures a == b
  {
    assert a != b ==> Attempts(d, a, b);
  }

  ghost predicate WithinTotal(d: Disk, id: ID) {
    Restored(d, id).Some? ==>
      var run := Restored(d, id).value;
      1 <= run.iteration <= run.total && id !in run.previous && (d.record.Some? ==> run.total <= d.record.value.repetitions)
  }

  // Groups from before the record was introduced carry one total everywhere.
  ghost predicate Uniform(d: Disk) {
    d.record.None? ==> forall a, b :: Restored(d, a).Some? && Restored(d, b).Some? ==>
      Restored(d, a).value.total == Restored(d, b).value.total
  }

  predicate Untouched(run: Run, total: nat) { run.state.Queued? && !run.started && run.total == total }

  // A pending admission can be undone: new directories hold nothing but what it wrote.
  ghost predicate Recoverable(d: Disk) {
    d.record.Some? ==>
      var r := d.record.value;
      && (r.before == map[] ==> forall id :: id in r.pending && id in d.runs && d.runs[id].Some? ==> Untouched(d.runs[id].value, r.pendingTotal))
      && (r.before != map[] ==> r.before.Keys == set id | id in r.pending)
  }

  ghost predicate Sound(d: Disk) {
    Chained(d) && (forall id :: WithinTotal(d, id)) && Uniform(d) && Recoverable(d)
  }

  // The view decides everything but recoverability.
  lemma SameViewIsChained(d: Disk, e: Disk)
    requires Chained(d) && SameView(d, e)
    ensures Chained(e)
  {
    forall a, b | Attempts(e, a, b) ensures Lists(e, a, b) || Lists(e, b, a) {
      assert Logical(d, a) == Logical(e, a) && Logical(d, b) == Logical(e, b);
      assert Attempts(d, a, b);
    }
  }

  ghost predicate SameFiles(d: Disk, e: Disk) { forall id :: Restored(d, id) == Restored(e, id) }

  // A file operation that leaves what recovery restores, and the committed part of the
  // record, changes nothing a recovered reader sees.
  lemma SameFilesSameView(d: Disk, e: Disk)
    requires Sound(d) && SameFiles(d, e) && d.deleted == e.deleted
    requires d.record.Some? && e.record.Some?
    requires d.record.value.repetitions == e.record.value.repetitions && d.record.value.retired == e.record.value.retired
    requires Recoverable(e)
    ensures SameView(d, e) && Sound(e)
  {
    forall id ensures Logical(d, id) == Logical(e, id) && WithinTotal(e, id) {
      assert Restored(d, id) == Restored(e, id) && WithinTotal(d, id);
    }
    SameViewIsChained(d, e);
  }

  // -------------------------------------------------------- file operations

  predicate IsPending(d: Disk, id: ID) { d.record.Some? && id in d.record.value.pending }

  // A pending directory is created, written, restored or removed.
  lemma PendingFileKeeps(d: Disk, id: ID, content: Option<Option<Run>>)
    requires Sound(d) && IsPending(d, id) && PendingContent(d, id, content)
    ensures var e := d.(runs := if content.Some? then d.runs[id := content.value] else d.runs - {id});
      SameView(d, e) && Sound(e)
  {
    var e := d.(runs := if content.Some? then d.runs[id := content.value] else d.runs - {id});
    forall x ensures Restored(d, x) == Restored(e, x) { }
    SameFilesSameView(d, e);
  }

  function Cleared(r: Record): Record { r.(pending := [], before := map[], pendingTotal := 0) }

  lemma ClearKeeps(d: Disk)
    requires Sound(d) && d.record.Some? && forall j :: 0 <= j < |d.record.value.pending| ==> UndoneAt(d, d.record.value.pending[j])
    ensures SameView(d, d.(record := Some(Cleared(d.record.value)))) && Sound(d.(record := Some(Cleared(d.record.value))))
  {
    var e := d.(record := Some(Cleared(d.record.value)));
    forall id ensures Restored(d, id) == Restored(e, id) { }
    SameFilesSameView(d, e);
  }

  function FirstRecord(repetitions: nat): Record { Record(repetitions, [], 0, map[], {}, map[]) }

  // The record a group without one gets: its members' common total.
  lemma FirstRecordKeeps(d: Disk, repetitions: nat)
    requires Sound(d) && d.record.None? && repetitions >= 1
    requires forall id :: Restored(d, id).Some? ==> Restored(d, id).value.total == repetitions
    ensures var e := d.(record := Some(FirstRecord(repetitions)));
      SameView(d, e) && Sound(e)
  {
    var e := d.(record := Some(FirstRecord(repetitions)));
    forall id ensures Logical(d, id) == Logical(e, id) && WithinTotal(e, id) {
      assert Restored(d, id) == Restored(e, id) && WithinTotal(d, id);
    }
    SameViewIsChained(d, e);
  }

  // --------------------------------------------------------------- admission

  // What a caller asks to admit: new runs, or queued rewrites of the runs in `before`.
  datatype Admission = Admission(ids: seq<ID>, runs: map<ID, Run>, total: nat, before: map<ID, Run>)

  ghost predicate Distinct(ids: seq<ID>) { forall i, j :: 0 <= i < j < |ids| ==> ids[i] != ids[j] }

  function Retries(a: Admission): set<ID> { set id, p | id in a.runs && p in a.runs[id].previous :: p }

  // A new run has a fresh name and lists every earlier attempt of its iteration.
  ghost predicate NewRun(d: Disk, a: Admission, id: ID) {
    && id in a.runs && id !in d.runs && id !in d.deleted && (d.record.Some? ==> id !in d.record.value.retired)
    && (forall other :: !Lists(d, other, id)) && id !in Retries(a)
    && (forall other :: Logical(d, other).Some? && Logical(d, other).value.run.iteration == a.runs[id].iteration ==> other in a.runs[id].previous)
    && (forall other :: other in a.runs && other != id ==> a.runs[other].iteration != a.runs[id].iteration)
  }

  // A rewritten run is a current, never started member; its rollback image reads the same.
  ghost predicate RewrittenRun(d: Disk, a: Admission, id: ID) {
    && id in a.runs && Current(d, id) && id in a.before && id !in Retries(a)
    && a.before[id] == Logical(d, id).value.run
    && a.runs[id].iteration == a.before[id].iteration && a.runs[id].previous == a.before[id].previous
  }

  ghost predicate Admissible(d: Disk, a: Admission) {
    && d.record.Some? && d.record.value.pending == [] && d.record.value.before == map[]
    && 1 <= d.record.value.repetitions <= a.total
    && Distinct(a.ids) && a.ids != [] && a.runs.Keys == (set id | id in a.ids)
    && (forall id :: id in a.runs ==> Untouched(a.runs[id], a.total) && 1 <= a.runs[id].iteration <= a.total)
    && if a.before == map[] then forall id :: id in a.runs ==> NewRun(d, a, id)
       else a.before.Keys == a.runs.Keys && forall id :: id in a.runs ==> RewrittenRun(d, a, id)
  }

  // The view a committed admission shows.
  function Admitted(d: Disk, a: Admission, id: ID): Option<Member> {
    if id in a.runs then Some(Member(a.runs[id], false))
    else match Logical(d, id)
      case None => None
      case Some(m) => Some(Member(m.run.(total := a.total), m.superseded || id in Retries(a)))
  }

  ghost predicate ShowsAdmitted(d: Disk, a: Admission, e: Disk) { forall id :: Logical(e, id) == Admitted(d, a, id) }

  function Journal(r: Record, a: Admission): Record {
    r.(pending := a.ids, pendingTotal := a.total, before := a.before)
  }

  function Committed(r: Record, a: Admission, current: map<nat, ID>): Record {
    Cleared(r).(repetitions := a.total, retired := r.retired + Retries(a), current := current)
  }

  // The journal alone changes nothing.
  lemma JournalKeeps(d: Disk, a: Admission, current: map<nat, ID>)
    requires Sound(d) && Admissible(d, a)
    ensures var e := d.(record := Some(Journal(d.record.value, a).(current := current)));
      SameView(d, e) && Sound(e)
  {
    var e := d.(record := Some(Journal(d.record.value, a).(current := current)));
    forall id ensures Logical(d, id) == Logical(e, id) && WithinTotal(e, id) {
      assert WithinTotal(d, id);
      if id in a.ids {
        if a.before == map[] { assert NewRun(d, a, id); } else { assert RewrittenRun(d, a, id) && id in a.before; }
      }
    }
    forall id | id in a.ids ensures a.before == map[] ==> id !in d.runs {
      if a.before == map[] { assert NewRun(d, a, id); }
    }
    SameViewIsChained(d, e);
  }

  // Prepared: the journal is written and every pending directory holds its new run.
  ghost predicate Prepared(d: Disk, a: Admission, e: Disk) {
    && SameView(d, e) && Sound(e) && e.deleted == d.deleted && d.record.Some? && e.record.Some?
    && e.record.value.retired == d.record.value.retired && e.record.value.repetitions == d.record.value.repetitions
    && e.record.value.pending == a.ids && e.record.value.before == a.before
    && forall id :: id in a.ids ==> id in e.runs && id in a.runs && e.runs[id] == Some(a.runs[id])
  }

  // The commit record shows the whole admission at once.
  lemma CommitShowsAll(d: Disk, a: Admission, e: Disk, current: map<nat, ID>)
    requires Sound(d) && Admissible(d, a) && Prepared(d, a, e)
    ensures ShowsAdmitted(d, a, e.(record := Some(Committed(e.record.value, a, current))))
    ensures forall id :: WithinTotal(e.(record := Some(Committed(e.record.value, a, current))), id)
  {
    var f := e.(record := Some(Committed(e.record.value, a, current)));
    forall id ensures Logical(f, id) == Admitted(d, a, id) && WithinTotal(f, id) {
      assert WithinTotal(e, id) && WithinTotal(d, id) && Logical(d, id) == Logical(e, id);
      if id in a.runs {
        assert id in a.ids && Untouched(a.runs[id], a.total);
        if a.before == map[] { assert NewRun(d, a, id); } else { assert RewrittenRun(d, a, id) && Current(d, id); }
      }
    }
  }

  // Who lists whom after a commit: the old members as before, and the admitted runs.
  lemma AdmittedLists(d: Disk, a: Admission, f: Disk, other: ID, id: ID)
    requires Admissible(d, a) && ShowsAdmitted(d, a, f)
    ensures Lists(f, other, id) <==>
      if other in a.runs then other != id && id in a.runs[other].previous else Lists(d, other, id)
  {
    assert Logical(f, other) == Admitted(d, a, other);
  }

  /** Retrying keeps the chain of attempts: the new attempt lists all earlier ones. */
  lemma AdmittedIsChained(d: Disk, a: Admission, f: Disk)
    requires Chained(d) && Admissible(d, a) && ShowsAdmitted(d, a, f)
    ensures Chained(f)
  {
    forall x, y | Attempts(f, x, y) ensures Lists(f, x, y) || Lists(f, y, x) {
      assert Logical(f, x) == Admitted(d, a, x) && Logical(f, y) == Admitted(d, a, y);
      AdmittedLists(d, a, f, x, y);
      AdmittedLists(d, a, f, y, x);
      if a.before == map[] {
        assert x in a.runs ==> NewRun(d, a, x);
        assert y in a.runs ==> NewRun(d, a, y);
        assert x !in a.runs && y !in a.runs ==> Attempts(d, x, y);
      } else {
        assert x in a.runs ==> RewrittenRun(d, a, x);
        assert y in a.runs ==> RewrittenRun(d, a, y);
        assert Attempts(d, x, y);
      }
    }
  }

  /** Committing makes every admitted run the current attempt of its iteration, retires what
      it retries, and never brings an old attempt back. */
  lemma AdmittedCurrent(d: Disk, a: Admission, f: Disk, id: ID)
    requires Admissible(d, a) && ShowsAdmitted(d, a, f)
    ensures Current(f, id) <==> id in a.runs || (Current(d, id) && id !in Retries(a))
  {
    assert Logical(f, id) == Admitted(d, a, id);
    if id in a.runs {
      if a.before == map[] { assert NewRun(d, a, id); } else { assert RewrittenRun(d, a, id) && Current(d, id); }
      forall other ensures !Lists(f, other, id) { AdmittedLists(d, a, f, other, id); }
    } else {
      if Current(d, id) && id !in Retries(a) {
        forall other ensures !Lists(f, other, id) { AdmittedLists(d, a, f, other, id); }
      }
      if Current(f, id) {
        forall other ensures !Lists(d, other, id) {
          AdmittedLists(d, a, f, other, id);
          if other in a.runs && Lists(d, other, id) {
            StillListed(d, a, f, other, id);
          }
        }
      }
    }
  }

  // A rewritten run keeps its list of earlier attempts.
  lemma StillListed(d: Disk, a: Admission, f: Disk, other: ID, id: ID)
    requires Admissible(d, a) && ShowsAdmitted(d, a, f) && other in a.runs && Lists(d, other, id)
    ensures Lists(f, other, id)
  {
    AdmittedLists(d, a, f, other, id);
    assert a.before == map[] ==> NewRun(d, a, other);
    assert a.before != map[] ==> RewrittenRun(d, a, other);
  }

  // ---------------------------------------------------------------- deletion

  predicate Untracked(d: Disk) { d.record.None? || d.record.value.current == map[] }

  function Retired(d: Disk): set<ID> { if d.record.Some? then d.record.value.retired else {} }

  // Everything any stored attempt lists, whether or not readers see it.
  function StoredRetries(d: Disk): set<ID> {
    set id, p | id in d.runs && d.runs[id].Some? && p in d.runs[id].value.previous :: p
  }

  // Without a record, every member carries the group's total.
  ghost predicate CommonTotal(d: Disk, total: nat) {
    d.record.None? ==> total >= 1 && forall id :: Restored(d, id).Some? ==> Restored(d, id).value.total == total
  }

  // Before deleting a run, a group without recorded current attempts gets a record.
  function Retain(d: Disk, repetitions: nat, current: map<nat, ID>): Record {
    var r := if d.record.Some? then d.record.value else FirstRecord(repetitions);
    if r.current == map[] then r.(retired := StoredRetries(d), current := current) else r
  }

  function Delete(d: Disk, id: ID, repetitions: nat, current: map<nat, ID>): Disk {
    Disk(d.runs - {id}, Some(Retain(d, repetitions, current)), d.deleted + {id})
  }

  function Retiring(m: Option<Member>, superseded: bool): Option<Member> {
    if m.None? then None else Some(Member(m.value.run, superseded))
  }

  // Each of the three file operations of a deletion.
  lemma RetainLogical(d: Disk, repetitions: nat, current: map<nat, ID>)
    requires Sound(d) && CommonTotal(d, repetitions)
    ensures var e := d.(record := Some(Retain(d, repetitions, current)));
      Sound(e) && forall x :: Logical(e, x) == Retiring(Logical(d, x), x in Retired(e))
  {
    var e := d.(record := Some(Retain(d, repetitions, current)));
    forall x ensures WithinTotal(e, x) && Logical(e, x) == Retiring(Logical(d, x), x in Retired(e)) {
      assert WithinTotal(d, x) && Restored(e, x) == Restored(d, x);
    }
    forall x, y | Attempts(e, x, y) ensures Lists(e, x, y) || Lists(e, y, x) {
      assert Attempts(d, x, y);
    }
  }

  lemma HideKeeps(d: Disk, id: ID)
    requires Sound(d)
    ensures Sound(d.(deleted := d.deleted + {id}))
    ensures forall x :: Logical(d.(deleted := d.deleted + {id}), x) == if x == id then None else Logical(d, x)
  {
    var e := d.(deleted := d.deleted + {id});
    forall x ensures WithinTotal(e, x) && Restored(e, x) == Restored(d, x) { assert WithinTotal(d, x); }
    forall x, y | Attempts(e, x, y) ensures Lists(e, x, y) || Lists(e, y, x) { assert Attempts(d, x, y); }
  }

  // The directory of a deleted run, emptied first.
  lemma RemoveKeeps(d: Disk, id: ID, emptied: bool)
    requires Sound(d) && id in d.deleted && id in d.runs && d.record.Some?
    ensures var e := d.(runs := if emptied then d.runs[id := None] else d.runs - {id}); Sound(e) && SameView(d, e)
  {
    var e := d.(runs := if emptied then d.runs[id := None] else d.runs - {id});
    forall x ensures WithinTotal(e, x) && Logical(d, x) == Logical(e, x) { assert WithinTotal(d, x); }
    SameViewIsChained(d, e);
  }

  /** Exactly which attempts are current after a deletion. */
  lemma CurrentAfterDelete(d: Disk, id: ID, repetitions: nat, current: map<nat, ID>, x: ID)
    requires Sound(d) && CommonTotal(d, repetitions) && Logical(d, id).Some?
    ensures Current(Delete(d, id, repetitions, current), x) <==>
      && x != id && Logical(d, x).Some?
      && x !in (if Untracked(d) then StoredRetries(d) else Retired(d))
      && forall other :: other != id ==> !Lists(d, other, x)
  {
    var e1 := d.(record := Some(Retain(d, repetitions, current)));
    RetainLogical(d, repetitions, current);
    HideKeeps(e1, id);
    var e2 := e1.(deleted := e1.deleted + {id});
    assert id in d.runs;
    RemoveKeeps(e2, id, false);
    var e := Delete(d, id, repetitions, current);
    assert e == e2.(runs := e2.runs - {id});
    forall y ensures Logical(e, y) == if y == id then None else Logical(e1, y) {
      assert Logical(e, y) == Logical(e2, y);
    }
    forall other ensures Lists(e, other, x) <==> other != id && Lists(d, other, x) {
      assert Logical(e, other) == if other == id then None else Logical(e1, other);
    }
    assert Logical(e, x) == if x == id then None else Logical(e1, x);
  }

  // What the record retires once a deletion has made sure of it.
  function RetiredAfter(d: Disk): set<ID> { if Untracked(d) then StoredRetries(d) else Retired(d) }

  // Every old attempt that leans on the run, or on the record as it was, still has something
  // else to keep it old. With a record of current attempts this is about what the run lists.
  ghost predicate Shielded(d: Disk, id: ID) {
    forall x :: x != id && Logical(d, x).Some? && (x in Retired(d) || Lists(d, id, x)) ==>
      x in RetiredAfter(d) || ListedElsewhere(d, id, x)
  }

  ghost predicate ListedElsewhere(d: Disk, id: ID, x: ID) { exists other :: other != id && Lists(d, other, x) }

  /** When a deletion brings no old attempt back, exactly. */
  lemma DeletionFallsBackExactly(d: Disk, id: ID, repetitions: nat, current: map<nat, ID>)
    requires Sound(d) && CommonTotal(d, repetitions) && Logical(d, id).Some?
    ensures (forall x :: Current(Delete(d, id, repetitions, current), x) ==> Current(d, x)) <==> Shielded(d, id)
  {
    var after := Delete(d, id, repetitions, current);
    forall x ensures Current(after, x) <==>
        x != id && Logical(d, x).Some? && x !in RetiredAfter(d) && !ListedElsewhere(d, id, x)
    {
      CurrentAfterDelete(d, id, repetitions, current, x);
    }
    forall x | Logical(d, x).Some? && x != id
      ensures Current(d, x) <==> x !in Retired(d) && !Lists(d, id, x) && !ListedElsewhere(d, id, x)
    {
      assert Logical(d, x).value.superseded <==> x in Retired(d);
    }
    hide Current, Lists, ListedElsewhere, Retired, RetiredAfter, Delete, Sound;
  }

  // Everything a visible attempt lists is retired in the record.
  ghost predicate Covered(d: Disk) { forall other, id :: Lists(d, other, id) ==> id in Retired(d) }

  /** A deletion never brings an old attempt back, in a group whose record retires whatever
      is listed, and in a group that has no recorded current attempts yet. */
  lemma DeletionNeverFallsBack(d: Disk, id: ID, repetitions: nat, current: map<nat, ID>, x: ID)
    requires Sound(d) && CommonTotal(d, repetitions) && Logical(d, id).Some? && id in d.runs && d.runs[id].Some?
    requires if Untracked(d)
      then Retired(d) <= StoredRetries(d) && d.runs[id].value.previous == Logical(d, id).value.run.previous
      else Covered(d)
    requires Current(Delete(d, id, repetitions, current), x)
    ensures Current(d, x)
  {
    CurrentAfterDelete(d, id, repetitions, current, x);
    assert Logical(d, x).value.superseded ==> x in Retired(d);
    assert x in d.runs[id].value.previous ==> x in StoredRetries(d);
    assert !Lists(d, id, x);
  }

  /** Two deletions in a row: the first one records the current attempts of an untracked group,
      so the second does not forget what the run that went first had listed. */
  lemma SecondDeletionKeeps(d: Disk, first: ID, second: ID, totals: (nat, nat), current: map<nat, ID>, later: map<nat, ID>, x: ID)
    requires Sound(d) && CommonTotal(d, totals.0) && Logical(d, first).Some? && first in d.runs && d.runs[first].Some?
    requires if Untracked(d)
      then current != map[] && Retired(d) <= StoredRetries(d) && AsStored(d, first) && AsStored(d, second)
      else Covered(d)
    requires var e := Delete(d, first, totals.0, current); Logical(e, second).Some? && Current(Delete(e, second, totals.1, later), x)
    ensures Current(d, x)
  {
    var e := Delete(d, first, totals.0, current);
    DeletedIsSound(d, first, totals.0, current);
    assert !Untracked(e) && RetiredAfter(e) == RetiredAfter(d);
    CurrentAfterDelete(e, second, totals.1, later, x);
    DeletedShows(d, first, totals.0, current);
    hide Logical, Sound, Delete, StoredRetries, Covered, AsStored;
    assert x != first && Logical(d, x).Some? && x !in RetiredAfter(d);
    forall other | other != first && other != second ensures !Lists(d, other, x) { assert !Lists(e, other, x); }
    NotOld(d, first, second, x);
  }

  // What the file of a member lists is what the member shows.
  ghost predicate AsStored(d: Disk, id: ID) {
    Logical(d, id).Some? ==> id in d.runs && d.runs[id].Some? && d.runs[id].value.previous == Logical(d, id).value.run.previous
  }

  lemma DeletedIsSound(d: Disk, id: ID, repetitions: nat, current: map<nat, ID>)
    requires Sound(d) && CommonTotal(d, repetitions) && Logical(d, id).Some?
    ensures var e := Delete(d, id, repetitions, current); Sound(e) && CommonTotal(e, repetitions)
  {
    var e1 := d.(record := Some(Retain(d, repetitions, current)));
    RetainLogical(d, repetitions, current);
    HideKeeps(e1, id);
    var e2 := e1.(deleted := e1.deleted + {id});
    RemoveKeeps(e2, id, false);
    assert Delete(d, id, repetitions, current) == e2.(runs := e2.runs - {id});
  }

  // A deletion leaves the other members, as the record retires them.
  lemma DeletedShows(d: Disk, id: ID, repetitions: nat, current: map<nat, ID>)
    requires Sound(d) && CommonTotal(d, repetitions) && Logical(d, id).Some?
    ensures var e := Delete(d, id, repetitions, current);
      forall x :: Logical(e, x) == if x == id then None else Retiring(Logical(d, x), x in Retired(e))
  {
    var e1 := d.(record := Some(Retain(d, repetitions, current)));
    RetainLogical(d, repetitions, current);
    HideKeeps(e1, id);
    var e2 := e1.(deleted := e1.deleted + {id});
    RemoveKeeps(e2, id, false);
    assert Delete(d, id, repetitions, current) == e2.(runs := e2.runs - {id});
    forall x ensures Logical(e2.(runs := e2.runs - {id}), x) == Logical(e2, x) { }
  }

  lemma NotOld(d: Disk, first: ID, second: ID, x: ID)
    requires Logical(d, x).Some? && x !in RetiredAfter(d) && forall other :: other != first && other != second ==> !Lists(d, other, x)
    requires if Untracked(d) then Retired(d) <= StoredRetries(d) && AsStored(d, first) && AsStored(d, second) else Covered(d)
    ensures Current(d, x)
  {
  }

  // A group from before the record, whose only iteration was retried, extended by one run.
  function ExtendedLegacyGroup(): Disk {
    Disk(map[1 := Some(Run(1, 1, FailedRun, true, [])), 2 := Some(Run(1, 1, Completed, true, [1])), 3 := Some(Run(2, 2, Completed, true, []))],
         Some(Record(2, [], 0, map[], {}, map[1 := 2, 2 := 3])), {})
  }

  /** Elsewhere it can: extending a group records its current attempts without retiring what
      they list, so deleting the retry makes the failed attempt current again. */
  lemma DeletionMayFallBack()
    ensures var d := ExtendedLegacyGroup();
      Sound(d) && !Covered(d) && !Untracked(d) && Current(d, 2) && !Current(d, 1) && Current(Delete(d, 2, 2, map[]), 1)
  {
    var d := ExtendedLegacyGroup();
    assert Logical(d, 1) == Some(Member(Run(1, 2, FailedRun, true, []), false));
    assert Logical(d, 2) == Some(Member(Run(1, 2, Completed, true, [1]), false));
    assert Logical(d, 3) == Some(Member(Run(2, 2, Completed, true, []), false));
    assert forall id :: Logical(d, id).Some? ==> id in {1, 2, 3};
    assert Lists(d, 2, 1);
    CurrentAfterDelete(d, 2, 2, map[], 1);
  }

  // ------------------------------------------------------------- the group

  // The images of a commit show the old view up to some point and the new view from there.
  ghost predicate Atomic(trace: seq<Disk>, start: nat, cut: nat, d: Disk, a: Admission) {
    && start <= cut <= |trace|
    && (forall i :: start <= i < cut ==> SameView(d, trace[i]))
    && (forall i :: cut <= i < |trace| ==> ShowsAdmitted(d, a, trace[i]))
  }

  ghost predicate SameSince(trace: seq<Disk>, start: nat, d: Disk) {
    forall i :: start <= i < |trace| ==> SameView(d, trace[i])
  }

  ghost predicate AllSound(trace: seq<Disk>) { forall i :: 0 <= i < |trace| ==> Sound(trace[i]) }

  class Group {
    var disk: Disk
    // Runs that a scheduler of this process holds: of each admitted group, all.
    var active: set<ID>
    // Every disk image so far: a crash leaves one of them. And failed file operations.
    ghost var trace: seq<Disk>
    ghost var faults: nat

    ghost predicate Valid()
      reads this
    {
      Sound(disk) && AllSound(trace)
    }

    // A process starts on whatever image the last one left.
    constructor (d: Disk)
      requires Sound(d)
      ensures Valid() && disk == d && active == {} && trace == [d] && faults == 0
    {
      disk, active, trace, faults := d, {}, [d], 0;
    }

    ghost method Record()
      requires Valid()
      modifies this`trace
      ensures Valid() && trace == old(trace) + [disk]
    {
      trace := trace + [disk];
    }

    // One operation on a pending run's directory.
    method PutPending(id: ID, content: Option<Option<Run>>, ghost base: Disk, ghost start: nat)
      requires Valid() && IsPending(disk, id) && PendingContent(disk, id, content)
      requires start <= |trace| && SameView(base, disk) && SameSince(trace, start, base)
      modifies this`disk, this`trace
      ensures Valid() && trace == old(trace) + [disk] && SameView(base, disk) && SameSince(trace, start, base)
      ensures disk == old(disk).(runs := if content.Some? then old(disk).runs[id := content.value] else old(disk).runs - {id})
    {
      hide SameView, Sound, PendingContent;
      PendingFileKeeps(disk, id, content);
      ghost var before := disk;
      disk := disk.(runs := if content.Some? then disk.runs[id := content.value] else disk.runs - {id});
      SameTransitively(base, before, disk);
      Record();
    }

    // Undo one pending run. Nothing but what the admission wrote is ever removed.
    method Undo(id: ID, ghost base: Disk, ghost start: nat) returns (ok: bool)
      requires Valid() && IsPending(disk, id)
      requires start <= |trace| && SameView(base, disk) && SameSince(trace, start, base)
      modifies this`disk, this`trace, this`faults
      ensures Valid() && old(trace) <= trace && SameView(base, disk) && SameSince(trace, start, base)
      ensures disk == old(disk).(runs := disk.runs) && OthersKept(old(disk), disk, id) && disk.runs.Keys <= old(disk).runs.Keys
      ensures faults >= old(faults) && (!ok ==> faults > old(faults))
      ensures ok ==> UndoneAt(disk, id)
    {
      hide SameView, Sound;
      var r := disk.record.value;
      var first, second: bool := *, *;
      ok := true;
      if id !in disk.runs { return; }
      PendingIsExpected(disk, id);
      if r.before == map[] && disk.runs[id].Some? && !Untouched(disk.runs[id].value, r.pendingTotal) { return false; }
      if !first { faults := faults + 1; return false; }
      if r.before != map[] {
        PutPending(id, Some(Some(r.before[id])), base, start);
      } else {
        PutPending(id, Some(None), base, start);
        if !second { faults := faults + 1; return false; }
        PutPending(id, None, base, start);
      }
    }

    method WriteRecord(r: Record) returns (written: bool, ok: bool)
      requires AllSound(trace) && Sound(disk.(record := Some(r)))
      modifies this`disk, this`trace, this`faults
      ensures AllSound(trace) && (ok ==> written) && (!ok ==> faults > old(faults)) && faults >= old(faults)
      ensures disk == if written then old(disk).(record := Some(r)) else old(disk)
      ensures trace == if written then old(trace) + [disk] else old(trace)
    {
      hide Sound;
      written, ok := *, *;
      ok := ok && written;
      if !ok { faults := faults + 1; }
      if written {
        disk := disk.(record := Some(r));
        trace := trace + [disk];
      }
    }

    /** Undo an uncommitted admission. It may stop anywhere and be repeated; the recovered
        view is the same throughout, and without file errors it never refuses. */
    method Rollback() returns (ok: bool)
      requires Valid()
      modifies this`disk, this`trace, this`faults
      ensures Valid() && old(trace) <= trace && SameView(old(disk), disk) && SameSince(trace, |old(trace)|, old(disk))
      ensures faults >= old(faults) && (!ok ==> faults > old(faults))
      ensures ok ==> disk.record.None? || disk.record.value.pending == []
      ensures disk.deleted == old(disk).deleted && (old(disk).record.None? ==> disk == old(disk))
      ensures disk.runs.Keys <= old(disk).runs.Keys && Retired(disk) == Retired(old(disk))
      ensures old(disk).record.Some? ==> disk.record.Some? && disk.record.value.repetitions == old(disk).record.value.repetitions
      ensures old(disk).record.Some? && old(disk).record.value.pending == [] ==> disk == old(disk) && trace == old(trace)
    {
      hide SameView, Sound;
      SameReflexively(disk);
      if disk.record.None? || disk.record.value.pending == [] { return true; }
      ghost var base, start := disk, |trace|;
      var r := disk.record.value;
      for i := 0 to |r.pending|
        invariant Valid() && old(trace) <= trace && start <= |trace| && SameView(base, disk) && SameSince(trace, start, base)
        invariant disk == base.(runs := disk.runs) && disk.runs.Keys <= base.runs.Keys && faults >= old(faults)
        invariant forall j :: 0 <= j < i ==> UndoneAt(disk, r.pending[j])
      {
        ghost var before := disk;
        ok := Undo(r.pending[i], base, start);
        UndoneStays(before, disk, r.pending, i);
        if !ok { return; }
      }
      ClearKeeps(disk);
      ghost var before := disk;
      var written;
      written, ok := WriteRecord(Cleared(r));
      if written {
        SameTransitively(base, before, disk);
      }
    }

    // Remember the current attempts that are not recorded yet.
    method FillCurrent(members: seq<ID>) returns (current: map<nat, ID>)
      requires forall m :: m in members ==> Logical(disk, m).Some?
      ensures disk.record.Some? ==> forall it :: it in disk.record.value.current ==> it in current && current[it] == disk.record.value.current[it]
      ensures forall m :: m in members ==> Logical(disk, m).value.run.iteration in current
    {
      current := if disk.record.Some? then disk.record.value.current else map[];
      for i := 0 to |members|
        invariant disk.record.Some? ==> forall it :: it in disk.record.value.current ==> it in current && current[it] == disk.record.value.current[it]
        invariant forall j :: 0 <= j < i ==> Logical(disk, members[j]).value.run.iteration in current
      {
        var iteration := Logical(disk, members[i]).value.run.iteration;
        if iteration !in current { current := current[iteration := members[i]]; }
      }
    }

    // Create and fill the new directories; give up what was created when one fails.
    method Reserve(a: Admission, ghost base: Disk, ghost start: nat) returns (ok: bool)
      requires Valid() && Journaled(disk, a) && a.before == map[] && (forall id :: id in a.ids ==> id !in disk.runs) && Distinct(a.ids)
      requires start <= |trace| && SameView(base, disk) && SameSince(trace, start, base)
      modifies this`disk, this`trace, this`faults
      ensures Valid() && old(trace) <= trace && SameView(base, disk) && SameSince(trace, start, base)
      ensures disk == old(disk).(runs := disk.runs) && (ok ==> Written(disk, a, |a.ids|))
      ensures faults >= old(faults) && (!ok ==> faults > old(faults))
    {
      hide SameView, Sound;
      var i := 0;
      ok := true;
      while ok && i < |a.ids|
        invariant i <= |a.ids| && Valid() && old(trace) <= trace && SameView(base, disk) && SameSince(trace, start, base)
        invariant disk == old(disk).(runs := disk.runs) && (ok ==> Written(disk, a, i))
        invariant faults >= old(faults) && (!ok ==> faults > old(faults))
      {
        var made, filled: bool := *, *;
        if !made { ok, faults := false, faults + 1; break; }
        PutPending(a.ids[i], Some(None), base, start);
        if filled { PutPending(a.ids[i], Some(Some(a.runs[a.ids[i]])), base, start); } else { ok, faults := false, faults + 1; }
        i := i + 1;
      }
      if ok { return; }
      for j := 0 to i
        invariant Valid() && old(trace) <= trace && SameView(base, disk) && SameSince(trace, start, base)
        invariant disk == old(disk).(runs := disk.runs) && faults > old(faults)
      {
        var removed: bool := *;
        if removed { PutPending(a.ids[j], None, base, start); }
      }
    }

    // Queue the existing runs again.
    method Rewrite(a: Admission, ghost base: Disk, ghost start: nat) returns (ok: bool)
      requires Valid() && Journaled(disk, a) && a.before != map[] && (forall id :: id in a.ids ==> id in disk.runs) && Distinct(a.ids)
      requires start <= |trace| && SameView(base, disk) && SameSince(trace, start, base)
      modifies this`disk, this`trace, this`faults
      ensures Valid() && old(trace) <= trace && SameView(base, disk) && SameSince(trace, start, base)
      ensures disk == old(disk).(runs := disk.runs) && (ok ==> Written(disk, a, |a.ids|))
      ensures faults >= old(faults) && (!ok ==> faults > old(faults))
    {
      hide SameView, Sound;
      for i := 0 to |a.ids|
        invariant Valid() && old(trace) <= trace && SameView(base, disk) && SameSince(trace, start, base)
        invariant disk == old(disk).(runs := disk.runs) && Written(disk, a, i) && faults == old(faults)
        invariant forall id :: id in a.ids ==> id in disk.runs
      {
        var rewritten: bool := *;
        if !rewritten { faults := faults + 1; return false; }
        PutPending(a.ids[i], Some(Some(a.runs[a.ids[i]])), base, start);
      }
      ok := true;
    }

    // Undo whatever was prepared; recovery does it later if this fails, too.
    method GiveUp(ghost base: Disk, ghost start: nat)
      requires Valid() && start <= |trace| && SameView(base, disk) && SameSince(trace, start, base)
      modifies this`disk, this`trace, this`faults
      ensures Valid() && old(trace) <= trace && SameView(base, disk) && SameSince(trace, start, base) && faults >= old(faults)
    {
      hide SameView, Sound;
      ghost var before, so := disk, |trace|;
      var undone := Rollback();
      SameTransitively(base, before, disk);
      SinceJoins(trace, start, so, base, before);
    }

    // Rewrite the record with the new total, attempts and retirements, and without a journal.
    method Publish(a: Admission, current: map<nat, ID>, ghost d: Disk, ghost base: Disk, ghost start: nat) returns (ok: bool, ghost cut: nat)
      requires Valid() && Sound(d) && Admissible(d, a) && Prepared(d, a, disk) && SameView(base, d)
      requires start <= |trace| && SameView(base, disk) && SameSince(trace, start, base)
      modifies this`disk, this`trace, this`faults
      ensures Valid() && old(trace) <= trace && Atomic(trace, start, cut, base, a)
      ensures ok ==> ShowsAdmitted(base, a, disk) && disk.record.Some? && disk.record.value.pending == [] && disk.record.value.current == current
      ensures !ok ==> SameView(base, disk) || ShowsAdmitted(base, a, disk)
      ensures faults >= old(faults) && (!ok ==> faults > old(faults))
    {
      CommitKeeps(d, a, disk, current);
      hide SameView, Sound, Admissible, ShowsAdmitted;
      var r := Committed(disk.record.value, a, current);
      ghost var before := trace;
      var written;
      written, ok := WriteRecord(r);
      if written {
        ShowsSame(d, base, a, disk);
        cut := |before|;
        if !ok { var nothing := Rollback(); }
      } else {
        GiveUp(base, start);
        cut := |trace|;
      }
    }

    // The admitted runs become the recorded current attempts.
    method Promote(a: Admission, filled: map<nat, ID>) returns (current: map<nat, ID>)
      requires a.runs.Keys == (set id | id in a.ids) && DistinctIterations(a)
      ensures filled.Keys <= current.Keys
      ensures forall id :: id in a.runs ==> a.runs[id].iteration in current && current[a.runs[id].iteration] == id
    {
      current := filled;
      for i := 0 to |a.ids|
        invariant filled.Keys <= current.Keys
        invariant forall j :: 0 <= j < i ==> a.runs[a.ids[j]].iteration in current && current[a.runs[a.ids[j]].iteration] == a.ids[j]
      {
        current := current[a.runs[a.ids[i]].iteration := a.ids[i]];
      }
    }

    // Write the journal and the directories; undo them when a step fails.
    method Prepare(a: Admission, filled: map<nat, ID>, r: Record, ghost d: Disk) returns (ok: bool)
      requires Valid() && Sound(d) && Admissible(d, a) && d == disk.(record := Some(r)) && SameView(disk, d) && Shaped(d, a)
      modifies this`disk, this`trace, this`faults
      ensures Valid() && old(trace) <= trace && SameView(old(disk), disk) && SameSince(trace, |old(trace)|, old(disk))
      ensures ok ==> Prepared(d, a, disk)
      ensures faults >= old(faults) && (!ok ==> faults > old(faults))
    {
      hide SameView, Sound, Admissible;
      ghost var base, start := disk, |trace|;
      JournalKeeps(d, a, filled);
      SameReflexively(base);
      var written;
      written, ok := WriteRecord(Journal(r, a).(current := filled));
      if written { SameTransitively(base, d, disk); }
      if !ok { return; }
      if a.before == map[] { ok := Reserve(a, base, start); } else { ok := Rewrite(a, base, start); }
      var synced: bool := *;
      if !synced { faults := faults + 1; }
      if !ok || !synced {
        GiveUp(base, start);
        return false;
      }
      PreparedNow(d, a, base, disk);
    }

    /** The common boundary of every admission. Whatever fails and wherever it stops, each
        disk image shows, once recovered, the old group or the whole admission. */
    method Commit(a: Admission, members: seq<ID>) returns (ok: bool, ghost cut: nat)
      requires forall m :: m in members ==> Logical(disk, m).Some?
      requires Valid() && Proposed(disk, a, PreviousTotal(disk, members, a.total))
      modifies this`disk, this`trace, this`faults
      ensures Valid() && old(trace) <= trace && Atomic(trace, |old(trace)|, cut, old(disk), a)
      ensures ok ==> ShowsAdmitted(old(disk), a, disk) && disk.record.Some? && disk.record.value.pending == []
      ensures ok ==> forall id :: id in a.runs ==> Remembered(disk, a, id)
      ensures ok ==> forall m :: m in members ==> IterationOf(old(disk), m) in disk.record.value.current
      ensures !ok ==> SameView(old(disk), disk) || ShowsAdmitted(old(disk), a, disk)
      ensures faults >= old(faults) && (!ok ==> faults > old(faults))
    {
      var total := PreviousTotal(disk, members, a.total);
      ghost var base, start, d := disk, |trace|, Based(disk, total);
      BasedKeeps(disk, a, total);
      assert Admissible(d, a);
      AdmissibleShape(d, a);
      hide SameView, Sound, Admissible, ShowsAdmitted, PreviousTotal, Proposed;
      var filled := FillCurrent(members);
      var r := if disk.record.Some? then disk.record.value else FirstRecord(total);
      assert d == disk.(record := Some(r));
      ok := Prepare(a, filled, r, d);
      cut := |trace|;
      if !ok { return; }
      var current := Promote(a, filled);
      ok, cut := Publish(a, current, d, base, start);
    }

    // -------------------------------------------------------------- members

    method AllMembers() returns (members: seq<ID>)
      requires disk.record.None? || disk.record.value.pending == []
      ensures Distinct(members) && forall id :: id in members <==> Logical(disk, id).Some?
    {
      members := [];
      var todo := disk.runs.Keys;
      while todo != {}
        invariant todo <= disk.runs.Keys && Distinct(members)
        invariant forall id :: id in members <==> id in disk.runs.Keys - todo && Logical(disk, id).Some?
        decreases todo
      {
        var id :| id in todo;
        if Visible(disk, id).Some? { members := members + [id]; }
        todo := todo - {id};
      }
    }

    // Only the latest attempt of each iteration takes part in a continuation.
    method CurrentMembers(members: seq<ID>) returns (current: seq<ID>)
      requires Distinct(members) && forall id :: id in members <==> Logical(disk, id).Some?
      ensures Distinct(current) && AllCurrent(disk, current) && forall id :: id in current <==> Current(disk, id)
    {
      var listed: set<ID> := {};
      for i := 0 to |members|
        invariant forall id :: id in listed <==> exists j :: 0 <= j < i && Lists(disk, members[j], id)
      {
        var previous := Logical(disk, members[i]).value.run.previous;
        listed := listed + set id | id in previous && id != members[i];
      }
      current := [];
      for i := 0 to |members|
        invariant Distinct(current)
        invariant forall id :: id in current <==> id in members[..i] && id !in listed && !Logical(disk, id).value.superseded
      {
        assert members[..i + 1] == members[..i] + [members[i]];
        if !Logical(disk, members[i]).value.superseded && members[i] !in listed { current := current + [members[i]]; }
      }
      assert members[..|members|] == members;
      forall id | Current(disk, id) ensures id !in listed { }
    }

    // ----------------------------------------------------------- operations

    // Roll back what an earlier process left, then commit.
    method AdmitAfterRollback(a: Admission, members: seq<ID>, group: seq<ID>, ghost base: Disk, ghost start: nat) returns (ok: bool, ghost cut: nat)
      requires forall m :: m in members ==> Logical(disk, m).Some?
      requires Valid() && Proposed(disk, a, PreviousTotal(disk, members, a.total))
      requires start <= |trace| && SameView(base, disk) && SameSince(trace, start, base)
      modifies this
      ensures Valid() && old(trace) <= trace && Atomic(trace, start, cut, base, a)
      ensures ok ==> ShowsAdmitted(base, a, disk) && active == old(active) + (set id | id in group) + a.runs.Keys
      ensures faults >= old(faults) && (!ok ==> faults > old(faults))
      ensures !ok ==> active == old(active) && (SameView(base, disk) || ShowsAdmitted(base, a, disk))
    {
      hide SameView, Sound, Admissible, ShowsAdmitted, Proposed, PreviousTotal;
      ghost var d, k := disk, |trace|;
      ok, cut := Commit(a, members);
      AtomicJoins(trace, start, k, cut, base, d, a);
      if ok { active := active + (set id | id in group) + a.runs.Keys; }
      if SameView(d, disk) { SameTransitively(base, d, disk); }
      if ShowsAdmitted(d, a, disk) { ShowsSame(d, base, a, disk); }
    }

    /** Append runs to a complete, idle group. It is refused only outside the limits, for a group
        that is not complete or not idle, when its saved files refuse it, or by a failed operation. */
    method Append(additional: int, expected: int, ids: seq<ID>, consistent: bool) returns (ok: bool, ghost a: Admission, ghost cut: nat)
      requires Valid() && Distinct(ids) && FreshNames(disk, ids) && |ids| == MaxInt(additional, 0)
      modifies this
      ensures Valid() && old(trace) <= trace && Atomic(trace, |old(trace)|, cut, old(disk), a)
      ensures ok ==> 1 <= additional && 1 <= expected && expected + additional <= MAX_REPETITIONS
      ensures ok ==> ShowsAdmitted(old(disk), a, disk) && a == Appended(ids, expected, additional)
      ensures ok ==> Extended(old(disk), ids, expected, disk)
      ensures ok ==> Idle(old(disk), old(active)) && Extendable(old(disk), expected) && consistent
      ensures !ok ==> SameView(old(disk), disk) || ShowsAdmitted(old(disk), a, disk)
      ensures faults >= old(faults) && (if ok then Occupied(old(disk), a, old(active), active) else active == old(active))
      ensures !ok && 1 <= additional && 1 <= expected && expected + additional <= MAX_REPETITIONS && consistent ==>
        !(Idle(old(disk), old(active)) && Extendable(old(disk), expected)) || faults > old(faults)
    {
      hide SameView, Sound, Admissible, ShowsAdmitted, Proposed, PreviousTotal, Logical, Finished, Extendable, Idle, Atomic, Distinct, FreshNames, Extended;
      ghost var base, start := disk, |trace|;
      a, cut := Admission([], map[], 0, map[]), |trace|;
      SameReflexively(base);
      NothingAdmitted(trace, start, base, a);
      if additional < 1 || expected < 1 || expected > MAX_REPETITIONS || additional > MAX_REPETITIONS - expected { return false, a, cut; }
      ok := Rollback();
      cut := |trace|;
      StillFresh(base, disk, ids);
      NothingAdmitted(trace, start, base, a);
      if !ok { return; }
      var members, group;
      ok, members, group := Appendable(expected);
      ExtendableSame(base, disk, active, expected);
      assert forall id :: id in group <==> Logical(base, id).Some?;
      if !ok { return; }
      if !consistent { return false, a, cut; }
      ok, a, cut := AppendTo(members, group, ids, expected, additional, base, start);
      if ok {
        GroupIsOccupied(base, group, a, old(active), active);
        AppendedMeans(base, ids, expected, additional, disk);
      }
    }

    // The next iterations of a group that is known to be complete.
    method AppendTo(members: seq<ID>, group: seq<ID>, ids: seq<ID>, expected: nat, additional: nat, ghost base: Disk, ghost start: nat)
      returns (ok: bool, ghost a: Admission, ghost cut: nat)
      requires Valid() && start <= |trace| && SameView(base, disk) && SameSince(trace, start, base)
      requires (disk.record.None? || disk.record.value.pending == []) && Distinct(ids) && |ids| == additional && 1 <= additional && 1 <= expected == |members|
      requires forall id :: id in members ==> Logical(disk, id).Some? && Finished(disk, id, expected)
      requires FreshNames(base, ids) && FreshFiles(disk, ids)
      modifies this
      ensures Valid() && old(trace) <= trace && Atomic(trace, start, cut, base, a) && a == Appended(ids, expected, additional)
      ensures ok ==> ShowsAdmitted(base, a, disk)
      ensures !ok ==> SameView(base, disk) || ShowsAdmitted(base, a, disk)
      ensures faults >= old(faults) && (!ok ==> faults > old(faults))
      ensures active == if ok then old(active) + (set id | id in group) + a.runs.Keys else old(active)
    {
      hide SameView, Sound, Admissible, ShowsAdmitted, Proposed, PreviousTotal, Logical, Finished;
      var request := Appended(ids, expected, additional);
      a := request;
      AppendIsProposed(base, disk, members, ids, expected, additional);
      ok, cut := AdmitAfterRollback(request, members, group, base, start);
    }

    /** Start a group, possibly repeating a submission whose earlier attempt was undone. */
    method Start(repetitions: int, ids: seq<ID>, accepted: bool) returns (ok: bool, ghost a: Admission, ghost cut: nat)
      requires Valid() && Distinct(ids) && FreshNames(disk, ids) && |ids| == MaxInt(repetitions, 0)
      requires forall id :: Logical(disk, id).None?
      requires if disk.record.None? then disk.runs == map[] else disk.record.value.repetitions == repetitions
      modifies this
      ensures Valid() && old(trace) <= trace && Atomic(trace, |old(trace)|, cut, old(disk), a)
      ensures ok ==> 1 <= repetitions <= MAX_REPETITIONS && ShowsAdmitted(old(disk), a, disk) && a == Appended(ids, 0, repetitions) && accepted
      ensures ok ==> Extended(old(disk), ids, 0, disk)
      ensures !ok ==> SameView(old(disk), disk) || ShowsAdmitted(old(disk), a, disk)
      ensures !ok && 1 <= repetitions <= MAX_REPETITIONS && accepted ==> faults > old(faults)
      ensures if ok then Occupied(old(disk), a, old(active), active) else active == old(active)
    {
      hide SameView, Sound, Admissible, ShowsAdmitted, Proposed, PreviousTotal, Extended;
      ghost var base, start := disk, |trace|;
      a, cut := Admission([], map[], 0, map[]), |trace|;
      SameReflexively(base);
      if repetitions < 1 || repetitions > MAX_REPETITIONS { return false, a, cut; }
      ok := Rollback();
      cut := |trace|;
      if !ok { return; }
      if !accepted { return false, a, cut; }
      var request := Appended(ids, 0, repetitions);
      a := request;
      StartIsProposed(base, disk, ids, repetitions);
      ok, cut := AdmitAfterRollback(request, [], [], base, start);
      if ok {
        GroupIsOccupied(base, [], a, old(active), active);
        AppendedMeans(base, ids, 0, repetitions, disk);
      }
    }

    /** Continue a group: requeue the runs that never started, or retry whatever did not
        complete under new names. */
    method Resume(retry: bool, names: seq<ID>, fits: ID -> bool) returns (ok: bool, ghost chosen: seq<ID>, ghost expected: nat, ghost cut: nat)
      requires Valid() && Distinct(names) && FreshNames(disk, names) && |names| >= |disk.runs|
      modifies this
      ensures Valid() && old(trace) <= trace && |chosen| <= |names| && AllCurrent(old(disk), chosen)
      ensures Atomic(trace, |old(trace)|, cut, old(disk), Continuation(retry, old(disk), chosen, names, expected))
      ensures ok ==> chosen != [] && ShowsAdmitted(old(disk), Continuation(retry, old(disk), chosen, names, expected), disk)
      ensures ok ==> Continues(retry, old(disk), old(active)) && OneTotal(retry, old(disk), expected) && FilesAllow(retry, old(disk), fits)
      ensures !ok && Continues(retry, old(disk), old(active)) && FilesAllow(retry, old(disk), fits) ==> faults > old(faults)
      ensures if ok then Occupied(old(disk), Continuation(retry, old(disk), chosen, names, expected), old(active), active) else active == old(active)
      ensures ok ==> InOrder(old(disk), chosen) && forall id :: id in chosen <==> Taken(retry, old(disk), id)
      ensures ok ==> Requeued(retry, old(disk), chosen, names, expected, disk)
      ensures !ok ==> SameView(old(disk), disk) || ShowsAdmitted(old(disk), Continuation(retry, old(disk), chosen, names, expected), disk)
    {
      hide SameView, Sound, Admissible, ShowsAdmitted, Proposed, PreviousTotal, Current, Atomic, Continuation, Taken, Continues, InOrder, Requeued;
      ghost var base, start := disk, |trace|;
      SameReflexively(base);
      chosen, expected := [], 0;
      ok := Rollback();
      cut := |trace|;
      NothingAdmitted(trace, start, base, Continuation(retry, base, [], names, 0));
      if !ok { return; }
      var members, group, selected, total;
      ok, members, group, selected, total := Continuable(retry, fits);
      ContinuesAlike(retry, base, disk, active, fits);
      if !ok { return; }
      ContinuesSame(retry, base, disk, active, total);
      DistinctFit(selected, base.runs.Keys);
      ContinuationIsProposed(retry, base, disk, members, selected, names, total);
      chosen, expected := selected, total;
      forall id ensures Logical(base, id) == Logical(disk, id) && (Current(base, id) <==> Current(disk, id)) { CurrentSame(base, disk, id); }
      OrderedSame(base, disk, selected);
      ok, cut := AdmitAfterRollback(Continuation(retry, disk, selected, names, total), members, group, base, start);
      if ok {
        GroupIsOccupied(base, group, Continuation(retry, base, selected, names, total), old(active), active);
        ContinuationMeans(retry, base, selected, names, total, disk);
      }
    }

    /** Which current attempts a continuation takes: an idle group with consistent metadata
        has one exactly if some attempt qualifies, unless the files of one refuse it. */
    method Continuable(retry: bool, fits: ID -> bool) returns (ok: bool, members: seq<ID>, all: seq<ID>, chosen: seq<ID>, expected: nat)
      requires disk.record.None? || disk.record.value.pending == []
      ensures ok <==> Continues(retry, disk, active) && FilesAllow(retry, disk, fits)
      ensures forall id :: id in all <==> Logical(disk, id).Some?
      ensures ok ==> AllCurrent(disk, members) && AllCurrent(disk, chosen) && forall id :: id in members <==> Current(disk, id)
      ensures ok ==> chosen != [] && Distinct(chosen) && OneTotal(retry, disk, expected)
      ensures ok ==> forall id :: id in chosen <==> Taken(retry, disk, id)
      ensures ok ==> InOrder(disk, chosen)
    {
      hide Logical, Current, Taken, InOrder, SortMembers, Consistent, LastTried;
      all := AllMembers();
      members := CurrentMembers(all);
      MembersAreLogical(disk, members);
      SortingKeeps(disk, members);
      members := SortMembers(disk, members);
      expected, chosen := 0, [];
      NothingInOrder(disk);
      var busy := exists id :: id in all && id in active;
      if busy { return false, members, all, chosen, expected; }
      var last, failed;
      ok, expected, last, failed := Examine(retry, members);
      if !ok || (!retry && !failed) { return false, members, all, chosen, expected; }
      for i := 0 to |members|
        invariant ok && Distinct(chosen) && AllCurrent(disk, chosen) && InOrder(disk, chosen)
        invariant forall id :: id in chosen <==> id in members[..i] && Taken(retry, disk, id)
        invariant forall id :: id in chosen ==> fits(id)
      {
        assert members[..i + 1] == members[..i] + [members[i]];
        StillInOrder(disk, members, chosen, i);
        var run := Logical(disk, members[i]).value.run;
        TakenIs(retry, disk, members[i], last);
        if retry {
          if run.state.Completed? { continue; }
        } else if run.iteration <= last || run.started || !(run.state.Canceled? || Interrupted(run)) {
          continue;
        }
        // Logs of an unstarted run, or a different scenario, refuse the continuation.
        if !fits(members[i]) { return false, members, all, chosen, expected; }
        chosen := chosen + [members[i]];
      }
      assert members[..|members|] == members;
      ok := chosen != [];
      AnyTaken(retry, disk, members, chosen);
    }

    // The metadata of the current attempts: one total, one attempt per iteration.
    method Examine(retry: bool, members: seq<ID>) returns (ok: bool, expected: nat, last: nat, failed: bool)
      requires Distinct(members) && AllCurrent(disk, members) && forall id :: id in members <==> Current(disk, id)
      ensures ok <==> Consistent(retry, disk)
      ensures ok && members != [] ==> OneTotal(retry, disk, expected)
      ensures ok ==> (failed <==> exists id :: Current(disk, id) && Broke(Logical(disk, id).value.run))
      ensures ok ==> LastTried(disk, last)
    {
      hide Examined, AllCurrent, Consistent, OneTotal, LastTried;
      var seen: set<nat> := {};
      ok, expected, last, failed := true, 0, 0, false;
      NothingExamined(retry, disk, members);
      for i := 0 to |members|
        invariant ok && Examined(retry, disk, members[..i], expected, seen, last, failed)
      {
        var run := CurrentRun(disk, members, i);
        ghost var before, total := seen, expected;
        if expected == 0 { expected := run.total; }
        if expected < (if retry then 1 else 2) || expected > MAX_REPETITIONS || run.total != expected
          || run.iteration < 1 || run.iteration > expected || run.iteration in seen
        {
          NotConsistent(retry, disk, members, i, total, seen, last, failed);
          return false, expected, last, failed;
        }
        ExaminedStep(retry, disk, members, i, total, seen, last, failed);
        seen := seen + {run.iteration};
        if run.started || run.state.FailedRun? || run.state.Completed? { last := MaxInt(last, run.iteration); }
        failed := failed || run.state.FailedRun? || (Interrupted(run) && run.started);
      }
      assert members[..|members|] == members;
      AllExamined(retry, disk, members, expected, seen, last, failed);
    }

    /** Only a complete, idle group can be extended, and every such group can. */
    method Appendable(expected: nat) returns (ok: bool, members: seq<ID>, all: seq<ID>)
      requires disk.record.None? || disk.record.value.pending == []
      ensures ok <==> Idle(disk, active) && Extendable(disk, expected)
      ensures forall id :: id in all <==> Logical(disk, id).Some?
      ensures ok ==> |members| == expected && forall id :: id in members ==> Logical(disk, id).Some? && Finished(disk, id, expected)
    {
      hide Logical, Current, Extendable;
      all := AllMembers();
      members := CurrentMembers(all);
      var complete := Complete(members, expected);
      var busy := exists id :: id in all && id in active;
      ok := complete && !busy;
    }

    // The current attempts are completed runs of exactly the iterations 1 to `expected`.
    method Complete(members: seq<ID>, expected: nat) returns (complete: bool)
      requires Distinct(members) && forall id :: id in members <==> Current(disk, id)
      ensures complete <==> Extendable(disk, expected)
      ensures complete ==> |members| == expected && forall id :: id in members ==> Logical(disk, id).Some? && Finished(disk, id, expected)
    {
      hide Logical, Current, Extendable, CurrentRuns, ByIteration, Finished, InSequence, SortMembers, Distinct;
      MembersAreLogical(disk, members);
      CurrentIsStored(disk);
      MembersAreCounted(disk, members);
      if |members| != expected { NotExtendable(disk, members, expected); return false; }
      var sorted := SortMembers(disk, members);
      SortedByIteration(disk, members);
      SequenceIsExtendable(disk, members, sorted, expected);
      NoSequenceYet(disk, sorted, expected);
      for i := 0 to |sorted|
        invariant InSequence(disk, sorted, expected, i)
      {
        SequenceStep(disk, sorted, expected, i);
        var run := Logical(disk, sorted[i]).value.run;
        if !run.state.Completed? || run.total != expected || run.iteration != i + 1 { return false; }
      }
      ExtendableFinished(disk, members, expected);
      complete := true;
    }

    // The current attempts among everything stored, for a group that never recorded them.
    method StoredCurrent() returns (current: map<nat, ID>)
      ensures forall it :: it in current ==> StoredLatest(disk, current[it], it)
      ensures forall id, it :: StoredLatest(disk, id, it) ==> it in current
    {
      current := map[];
      var todo := disk.runs.Keys;
      while todo != {}
        invariant todo <= disk.runs.Keys
        invariant forall it :: it in current ==> StoredLatest(disk, current[it], it)
        invariant forall id, it :: StoredLatest(disk, id, it) && id !in todo ==> it in current
        decreases todo
      {
        var id :| id in todo;
        var listed := exists other :: other in disk.runs && disk.runs[other].Some? && other != id && id in disk.runs[other].value.previous;
        if disk.runs[id].Some? && !listed { current := current[disk.runs[id].value.iteration := id]; }
        todo := todo - {id};
      }
    }

    /** Delete a result: retain what it says about the group, then the marker that commits the
        deletion, then the files. */
    method DeleteResult(id: ID) returns (ok: bool, ghost total: nat, ghost current: map<nat, ID>)
      requires Valid()
      modifies this`disk, this`trace, this`faults
      ensures Valid() && old(trace) <= trace
      ensures ok ==> id in old(disk).runs && old(disk).runs[id].Some? && id !in active
      ensures ok ==> CommonTotal(old(disk), total) && disk == Delete(old(disk), id, total, current)
      ensures ok ==> Erased(old(disk), id, total, current, disk)
      ensures ok ==> forall it :: it in current ==> StoredLatest(old(disk), current[it], it)
      ensures ok ==> forall x, it :: StoredLatest(old(disk), x, it) ==> it in current
      ensures !ok ==> id in active || id !in old(disk).runs || old(disk).runs[id].None? || faults > old(faults)
      ensures !ok ==> id in disk.deleted || forall x :: Kept(old(disk), disk, x)
    {
      hide Sound, Erased;
      total, current := 0, map[];
      if id in active || id !in disk.runs || disk.runs[id].None? { return false, total, current; }
      var repetitions := disk.runs[id].value.total;
      StoredTotal(disk, id);
      var attempts := StoredCurrent();
      total, current := repetitions, attempts;
      DeleteMeans(disk, id, repetitions, attempts);
      RetainLogical(disk, repetitions, attempts);
      var written;
      written, ok := WriteRecord(Retain(disk, repetitions, attempts));
      if !ok { return; }
      var marked, emptied, removed: bool := *, *, *;
      if !marked { faults := faults + 1; return false, total, current; }
      HideKeeps(disk, id);
      disk := disk.(deleted := disk.deleted + {id});
      Record();
      if !emptied { faults := faults + 1; return false, total, current; }
      RemoveKeeps(disk, id, true);
      disk := disk.(runs := disk.runs[id := None]);
      Record();
      if !removed { faults := faults + 1; return false, total, current; }
      RemoveKeeps(disk, id, false);
      disk := disk.(runs := disk.runs - {id});
      Record();
      ok := true;
    }

    // The scheduler records how an admitted run goes on.
    method Progress(id: ID, state: RunState, started: bool)
      requires Valid() && id in active && !IsPending(disk, id) && Logical(disk, id).Some?
      modifies this`disk, this`trace
      ensures Valid() && forall x :: Logical(disk, x) == Progressed(old(disk), id, state, started, x)
      ensures Logical(disk, id) == Some(old(Logical(disk, id).value.(run := Logical(disk, id).value.run.(state := state, started := started))))
      ensures forall x :: x != id ==> Logical(disk, x) == old(Logical(disk, x))
    {
      ProgressKeeps(disk, id, state, started);
      hide Sound;
      disk := disk.(runs := disk.runs[id := Some(Logical(disk, id).value.run.(state := state, started := started))]);
      Record();
    }

    method Finish(id: ID)
      modifies this`active
      ensures active == old(active) - {id}
    {
      active := active - {id};
    }
  }

  // What a deletion leaves on disk: the directory is gone, its marker stays, and a record that
  // kept no current attempts gets those and everything that any stored attempt lists.
  ghost predicate Erased(d: Disk, id: ID, total: nat, current: map<nat, ID>, e: Disk) {
    && e.runs == d.runs - {id} && e.deleted == d.deleted + {id} && e.record.Some?
    && (d.record.Some? ==> (e.record.value.repetitions == d.record.value.repetitions && e.record.value.pending == d.record.value.pending
                            && e.record.value.before == d.record.value.before))
    && (d.record.None? ==> e.record.value.repetitions == total && e.record.value.pending == [] && e.record.value.before == map[])
    && if d.record.Some? && d.record.value.current != map[]
       then e.record.value.current == d.record.value.current && e.record.value.retired == d.record.value.retired
       else e.record.value.current == current
            && forall p :: p in e.record.value.retired <==> exists x :: x in d.runs && d.runs[x].Some? && p in d.runs[x].value.previous
  }

  lemma DeleteMeans(d: Disk, id: ID, total: nat, current: map<nat, ID>)
    ensures Erased(d, id, total, current, Delete(d, id, total, current))
  {
    forall p ensures p in StoredRetries(d) <==> exists x :: x in d.runs && d.runs[x].Some? && p in d.runs[x].value.previous { }
    hide StoredRetries;
  }

  // What a reader sees: nothing of a deleted run, of a directory without metadata, of one the
  // journal names as new, or of one with a total beyond the committed one.
  lemma LogicalMeans(d: Disk, id: ID)
    ensures id in d.deleted || id !in d.runs ==> Logical(d, id).None?
    ensures id in d.runs && id !in d.deleted && d.record.None? ==>
      Logical(d, id) == if d.runs[id].Some? then Some(Member(d.runs[id].value, false)) else None
    ensures id in d.runs && id !in d.deleted && d.record.Some? ==>
      var r := d.record.value;
      var file := if id !in r.pending then d.runs[id] else if id in r.before then Some(r.before[id]) else None;
      Logical(d, id) == if file.None? || file.value.total < 1 || r.repetitions < file.value.total then None
                        else Some(Member(file.value.(total := r.repetitions), id in r.retired))
    ensures Visible(d, id) == if d.record.Some? && id in d.record.value.pending then None else Logical(d, id)
  {
  }

  // As before, but possibly retired with everything the stored attempts list.
  ghost predicate Kept(d: Disk, e: Disk, x: ID) {
    Logical(e, x) == Logical(d, x) || Logical(e, x) == Retiring(Logical(d, x), x in StoredRetries(d))
  }

  function Progressed(d: Disk, id: ID, state: RunState, started: bool, x: ID): Option<Member>
    requires Logical(d, id).Some?
  {
    if x != id then Logical(d, x)
    else var m := Logical(d, id).value; Some(m.(run := m.run.(state := state, started := started)))
  }

  ghost predicate StoredLatest(d: Disk, id: ID, iteration: nat) {
    && id in d.runs && d.runs[id].Some? && d.runs[id].value.iteration == iteration
    && forall other :: other in d.runs && d.runs[other].Some? && other != id ==> id !in d.runs[other].value.previous
  }

  lemma StoredTotal(d: Disk, id: ID)
    requires Sound(d) && id in d.runs && d.runs[id].Some?
    ensures CommonTotal(d, d.runs[id].value.total)
  {
    assert d.record.None? ==> Restored(d, id) == d.runs[id] && WithinTotal(d, id);
  }

  lemma ProgressKeeps(d: Disk, id: ID, state: RunState, started: bool)
    requires Sound(d) && !IsPending(d, id) && Logical(d, id).Some?
    ensures var run := Logical(d, id).value.run.(state := state, started := started);
      var e := d.(runs := d.runs[id := Some(run)]);
      Sound(e) && forall x :: Logical(e, x) == Progressed(d, id, state, started, x)
  {
    var run := Logical(d, id).value.run.(state := state, started := started);
    var e := d.(runs := d.runs[id := Some(run)]);
    forall x ensures WithinTotal(e, x) && Logical(e, x) == Progressed(d, id, state, started, x) {
      assert WithinTotal(d, x) && (x != id ==> Restored(e, x) == Restored(d, x));
    }
    forall x, y | Attempts(e, x, y) ensures Lists(e, x, y) || Lists(e, y, x) { assert Attempts(d, x, y); }
    assert d.record.None? ==> forall x :: Restored(e, x).Some? ==>
      Restored(d, x).Some? && Restored(e, x).value.total == Restored(d, x).value.total;
  }

  // --------------------------------------------------------------- callers

  ghost predicate Finished(d: Disk, id: ID, expected: nat) {
    Logical(d, id).Some? &&
    var run := Logical(d, id).value.run;
    run.state.Completed? && run.total == expected && 1 <= run.iteration <= expected
  }

  // Names drawn at random name nothing yet.
  ghost predicate FreshNames(d: Disk, ids: seq<ID>) {
    forall id :: id in ids ==> id !in d.runs && id !in d.deleted && id !in Retired(d) && forall other :: !Lists(d, other, id)
  }

  function Appended(ids: seq<ID>, expected: nat, additional: nat): Admission
    requires |ids| == additional && Distinct(ids)
  {
    Admission(ids, AppendedRuns(ids, expected, expected + additional), expected + additional, map[])
  }

  function AppendedRuns(ids: seq<ID>, expected: nat, total: nat): (runs: map<ID, Run>)
    requires Distinct(ids)
    ensures runs.Keys == (set id | id in ids)
    ensures forall j :: 0 <= j < |ids| ==> runs[ids[j]] == Run(expected + j + 1, total, Queued, false, [])
  {
    if ids == [] then map[]
    else
      var n := |ids| - 1;
      AppendedRuns(ids[..n], expected, total)[ids[n] := Run(expected + n + 1, total, Queued, false, [])]
  }

  // What an extended group shows: the new runs queued, with the iterations after those there
  // were, and every other member with the new total.
  ghost predicate Extended(d: Disk, ids: seq<ID>, expected: nat, e: Disk) {
    && (forall k: nat :: k < |ids| ==> Logical(e, ids[k]) == Some(Member(Run(expected + k + 1, expected + |ids|, Queued, false, []), false)))
    && (forall id :: id !in ids ==> (Logical(e, id) ==
          if Logical(d, id).None? then None
          else Some(Member(Logical(d, id).value.run.(total := expected + |ids|), Logical(d, id).value.superseded))))
  }

  lemma AppendedMeans(d: Disk, ids: seq<ID>, expected: nat, additional: nat, e: Disk)
    requires |ids| == additional && Distinct(ids) && ShowsAdmitted(d, Appended(ids, expected, additional), e)
    ensures Extended(d, ids, expected, e)
  {
    hide Logical, AppendedRuns;
    var a := Appended(ids, expected, additional);
    assert forall j :: 0 <= j < |ids| ==> a.runs[ids[j]] == Run(expected + j + 1, expected + additional, Queued, false, []);
    assert forall id :: id in a.runs ==> a.runs[id].previous == [] by {
      forall id | id in a.runs ensures a.runs[id].previous == [] { var j :| 0 <= j < |ids| && ids[j] == id; }
    }
    assert Retries(a) == {};
  }

  ghost predicate AllLogical(d: Disk, members: seq<ID>) { forall m :: m in members ==> Logical(d, m).Some? }

  function IterationOf(d: Disk, id: ID): nat { if Logical(d, id).Some? then Logical(d, id).value.run.iteration else 0 }

  ghost predicate ByIteration(d: Disk, members: seq<ID>)
    requires AllLogical(d, members)
  {
    forall i, j :: 0 <= i < j < |members| ==> IterationOf(d, members[i]) <= IterationOf(d, members[j])
  }

  function InsertMember(d: Disk, id: ID, members: seq<ID>): (r: seq<ID>)
    requires Logical(d, id).Some? && AllLogical(d, members)
    ensures multiset(r) == multiset(members) + multiset{id} && AllLogical(d, r)
  {
    if members == [] || IterationOf(d, id) <= IterationOf(d, members[0]) then [id] + members
    else
      assert members == [members[0]] + members[1..];
      var r := [members[0]] + InsertMember(d, id, members[1..]);
      assert forall m :: m in r ==> m in multiset(r);
      r
  }

  function SortMembers(d: Disk, members: seq<ID>): (r: seq<ID>)
    requires AllLogical(d, members)
    ensures multiset(r) == multiset(members) && AllLogical(d, r)
  {
    if members == [] then []
    else
      assert members == [members[0]] + members[1..];
      InsertMember(d, members[0], SortMembers(d, members[1..]))
  }

  lemma {:induction false} InsertedByIteration(d: Disk, id: ID, members: seq<ID>)
    requires Logical(d, id).Some? && AllLogical(d, members) && ByIteration(d, members)
    ensures ByIteration(d, InsertMember(d, id, members))
  {
    hide Logical;
    if !(members == [] || IterationOf(d, id) <= IterationOf(d, members[0])) {
      InsertedByIteration(d, id, members[1..]);
      var rest := InsertMember(d, id, members[1..]);
      forall j | 0 <= j < |rest| ensures IterationOf(d, members[0]) <= IterationOf(d, rest[j]) {
        assert rest[j] in multiset(rest);
        if rest[j] != id { assert rest[j] in members[1..]; }
      }
    }
  }

  /** The members in the order of their iterations. */
  lemma {:induction false} SortedByIteration(d: Disk, members: seq<ID>)
    requires AllLogical(d, members)
    ensures ByIteration(d, SortMembers(d, members))
  {
    hide Logical;
    if members != [] {
      SortedByIteration(d, members[1..]);
      InsertedByIteration(d, members[0], SortMembers(d, members[1..]));
    }
  }

  // Members as the scheduler takes them up.
  ghost predicate InOrder(d: Disk, members: seq<ID>) {
    forall i, j :: 0 <= i < j < |members| ==> IterationOf(d, members[i]) <= IterationOf(d, members[j])
  }

  lemma NothingInOrder(d: Disk)
    ensures InOrder(d, [])
  {
  }

  lemma StillInOrder(d: Disk, members: seq<ID>, chosen: seq<ID>, i: nat)
    requires InOrder(d, members) && InOrder(d, chosen) && i < |members| && forall id :: id in chosen ==> id in members[..i]
    ensures InOrder(d, chosen + [members[i]])
  {
    hide Logical, IterationOf;
    forall k | 0 <= k < |chosen| ensures IterationOf(d, chosen[k]) <= IterationOf(d, members[i]) {
      assert chosen[k] in members[..i];
    }
  }

  lemma SortingKeeps(d: Disk, members: seq<ID>)
    requires AllLogical(d, members) && Distinct(members)
    ensures var sorted := SortMembers(d, members);
      Distinct(sorted) && InOrder(d, sorted) && forall id :: id in sorted <==> id in members
  {
    SortedByIteration(d, members);
    SameDistinct(members, SortMembers(d, members));
    hide Logical, SortMembers, IterationOf, Distinct;
  }

  lemma SameDistinct(members: seq<ID>, sorted: seq<ID>)
    requires Distinct(members) && multiset(sorted) == multiset(members)
    ensures Distinct(sorted) && forall id :: id in sorted <==> id in members
  {
    forall id ensures id in sorted <==> id in members { assert id in multiset(sorted) <==> id in multiset(members); }
    forall i, j | 0 <= i < j < |sorted| ensures sorted[i] != sorted[j] {
      OnceIn(members, sorted[i]);
      OnceAt(sorted, i, j);
    }
  }

  lemma OnceAt(members: seq<ID>, i: nat, j: nat)
    requires i < j < |members| && multiset(members)[members[i]] <= 1
    ensures members[i] != members[j]
  {
    assert members == members[..j] + [members[j]] + members[j + 1..];
    assert members[..j][i] == members[i];
  }

  lemma {:induction false} OnceIn(members: seq<ID>, id: ID)
    requires Distinct(members)
    ensures multiset(members)[id] <= 1
  {
    if members != [] {
      var n := |members| - 1;
      OnceIn(members[..n], id);
      assert members == members[..n] + [members[n]];
    }
  }

  ghost function CurrentRuns(d: Disk): set<ID> { set id | id in d.runs && Current(d, id) }

  // The current attempts are `expected` completed runs of that total with the iterations 1 to `expected`.
  ghost predicate Extendable(d: Disk, expected: int) {
    && |CurrentRuns(d)| == expected
    && (forall id :: Current(d, id) ==> (var run := Logical(d, id).value.run;
          run.state.Completed? && run.total == expected && 1 <= run.iteration <= expected))
    && forall x, y :: Current(d, x) && Current(d, y) && x != y ==> Logical(d, x).value.run.iteration != Logical(d, y).value.run.iteration
  }

  // The scheduler of an admission holds the admitted runs and all members of the group.
  ghost predicate Occupied(d: Disk, a: Admission, was: set<ID>, active: set<ID>) {
    forall id :: id in active <==> id in was || Logical(d, id).Some? || id in a.runs
  }

  lemma GroupIsOccupied(d: Disk, group: seq<ID>, a: Admission, was: set<ID>, active: set<ID>)
    requires active == was + (set id | id in group) + a.runs.Keys && forall id :: id in group <==> Logical(d, id).Some?
    ensures Occupied(d, a, was, active)
  {
    hide Logical;
  }

  ghost predicate Idle(d: Disk, active: set<ID>) { forall id :: id in active ==> Logical(d, id).None? }

  lemma {:induction false} DistinctCount(members: seq<ID>, all: set<ID>)
    requires Distinct(members) && forall id :: id in members <==> id in all
    ensures |members| == |all|
  {
    if members != [] {
      var n := |members| - 1;
      var last := members[n];
      forall id ensures id in members[..n] <==> id in all - {last} {
        if id in members[..n] { var j :| 0 <= j < n && members[j] == id; }
        if id in all - {last} { var j :| 0 <= j < |members| && members[j] == id; }
      }
      DistinctCount(members[..n], all - {last});
    }
  }

  // The current attempts sorted by iteration, and checked one by one, as the program does.
  ghost predicate InSequence(d: Disk, members: seq<ID>, expected: int, k: nat)
    requires AllLogical(d, members) && k <= |members|
  {
    forall j :: 0 <= j < k ==> (var run := Logical(d, members[j]).value.run;
      run.state.Completed? && run.total == expected && run.iteration == j + 1)
  }

  lemma NoSequenceYet(d: Disk, members: seq<ID>, expected: int)
    requires AllLogical(d, members)
    ensures InSequence(d, members, expected, 0)
  {
  }

  lemma SequenceStep(d: Disk, members: seq<ID>, expected: int, k: nat)
    requires AllLogical(d, members) && k < |members| && Logical(d, members[k]).Some?
    ensures var run := Logical(d, members[k]).value.run;
      var next := run.state.Completed? && run.total == expected && run.iteration == k + 1;
      && (InSequence(d, members, expected, k) && next ==> InSequence(d, members, expected, k + 1))
      && (!next ==> !InSequence(d, members, expected, |members|))
  {
    hide Logical;
  }

  lemma {:induction false} Climbs(a: seq<int>, k: nat)
    requires k < |a| && (forall i, j :: 0 <= i < j < |a| ==> a[i] < a[j])
    ensures a[0] + k <= a[k] <= a[|a| - 1] - (|a| - 1 - k)
  {
    var i := 0;
    while i < k
      invariant i <= k && a[0] + i <= a[i]
    {
      i := i + 1;
    }
    while i < |a| - 1
      invariant k <= i < |a| && a[k] + (i - k) <= a[i]
    {
      i := i + 1;
    }
  }

  lemma SequenceIsExtendable(d: Disk, members: seq<ID>, sorted: seq<ID>, expected: int)
    requires Distinct(members) && (forall id :: id in members <==> Current(d, id)) && |members| == expected
    requires AllLogical(d, sorted) && multiset(sorted) == multiset(members) && ByIteration(d, sorted)
    ensures |sorted| == expected && (InSequence(d, sorted, expected, |sorted|) <==> Extendable(d, expected))
  {
    hide Logical, Current;
    forall id ensures id in sorted <==> Current(d, id) { assert id in multiset(sorted) <==> id in multiset(members); }
    CurrentIsStored(d);
    DistinctCount(members, CurrentRuns(d));
    assert |multiset(sorted)| == |multiset(members)|;
    SortedDistinct(members, sorted);
    if InSequence(d, sorted, expected, |sorted|) { SequenceMeans(d, sorted, expected); }
    if Extendable(d, expected) { ExtendableMeans(d, sorted, expected); }
  }

  lemma MembersAreLogical(d: Disk, members: seq<ID>)
    requires forall id :: id in members <==> Current(d, id)
    ensures AllLogical(d, members)
  {
  }

  lemma MembersAreCounted(d: Disk, members: seq<ID>)
    requires Distinct(members) && forall id :: id in members <==> Current(d, id)
    ensures |members| == |CurrentRuns(d)|
  {
    hide Current;
    CurrentIsStored(d);
    DistinctCount(members, CurrentRuns(d));
  }

  lemma NotExtendable(d: Disk, members: seq<ID>, expected: int)
    requires |members| == |CurrentRuns(d)| && |members| != expected
    ensures !Extendable(d, expected)
  {
  }

  lemma ExtendableFinished(d: Disk, members: seq<ID>, expected: nat)
    requires (forall id :: id in members ==> Current(d, id)) && Extendable(d, expected)
    ensures forall id :: id in members ==> Logical(d, id).Some? && Finished(d, id, expected)
  {
  }

  lemma CurrentIsStored(d: Disk)
    ensures forall id :: Current(d, id) ==> id in d.runs
  {
  }

  lemma SortedDistinct(members: seq<ID>, sorted: seq<ID>)
    requires Distinct(members) && multiset(sorted) == multiset(members)
    ensures Distinct(sorted)
  {
    forall i, j | 0 <= i < j < |sorted| ensures sorted[i] != sorted[j] {
      if sorted[i] == sorted[j] {
        assert sorted == sorted[..i] + [sorted[i]] + sorted[i + 1..j] + [sorted[j]] + sorted[j + 1..];
        assert multiset(sorted)[sorted[i]] >= 2;
        DistinctOnce(members, sorted[i]);
      }
    }
  }

  lemma {:induction false} DistinctOnce(members: seq<ID>, id: ID)
    requires Distinct(members)
    ensures multiset(members)[id] <= 1
  {
    if members != [] {
      var n := |members| - 1;
      assert members == members[..n] + [members[n]];
      DistinctOnce(members[..n], id);
      if members[n] == id { assert id !in members[..n]; }
    }
  }

  lemma SequenceMeans(d: Disk, sorted: seq<ID>, expected: int)
    requires (forall id :: id in sorted <==> Current(d, id)) && |sorted| == |CurrentRuns(d)| == expected
    requires AllLogical(d, sorted) && InSequence(d, sorted, expected, |sorted|)
    ensures Extendable(d, expected)
  {
    hide Logical, Current, CurrentRuns;
    forall id | Current(d, id)
      ensures var run := Logical(d, id).value.run; run.state.Completed? && run.total == expected && 1 <= run.iteration <= expected
    {
      var j :| 0 <= j < |sorted| && sorted[j] == id;
    }
    forall x, y | Current(d, x) && Current(d, y) && x != y ensures Logical(d, x).value.run.iteration != Logical(d, y).value.run.iteration {
      var i :| 0 <= i < |sorted| && sorted[i] == x;
      var j :| 0 <= j < |sorted| && sorted[j] == y;
    }
  }

  lemma ExtendableMeans(d: Disk, sorted: seq<ID>, expected: int)
    requires (forall id :: id in sorted <==> Current(d, id)) && |sorted| == expected && Distinct(sorted)
    requires AllLogical(d, sorted) && ByIteration(d, sorted) && Extendable(d, expected)
    ensures InSequence(d, sorted, expected, |sorted|)
  {
    hide Logical, Current, CurrentRuns;
    var its: seq<int> := seq(|sorted|, i requires 0 <= i < |sorted| => IterationOf(d, sorted[i]));
    forall i, j | 0 <= i < j < |its| ensures its[i] < its[j] { assert Current(d, sorted[i]) && Current(d, sorted[j]) && sorted[i] != sorted[j]; }
    forall j | 0 <= j < |sorted|
      ensures var run := Logical(d, sorted[j]).value.run; run.state.Completed? && run.total == expected && run.iteration == j + 1
    {
      assert Current(d, sorted[j]) && Current(d, sorted[0]) && Current(d, sorted[|sorted| - 1]);
      Climbs(its, j);
    }
  }

  lemma AppendIsProposed(base: Disk, d: Disk, members: seq<ID>, ids: seq<ID>, expected: nat, additional: nat)
    requires Sound(d) && SameView(base, d) && FreshNames(base, ids) && FreshFiles(d, ids)
    requires d.record.None? || d.record.value.pending == []
    requires Distinct(ids) && |ids| == additional && 1 <= additional && 1 <= expected == |members|
    requires forall id :: id in members ==> Logical(d, id).Some? && Finished(d, id, expected)
    ensures Proposed(d, Appended(ids, expected, additional), PreviousTotal(d, members, expected + additional))
  {
    var a, first := Appended(ids, expected, additional), members[0];
    assert first in members && Finished(d, first, expected);
    var e := Based(d, expected);
    FinishedGroup(d, first, expected);
    BasedShows(d, expected);
    forall other ensures Logical(e, other).Some? ==> Logical(e, other).value.run.iteration <= expected {
      IterationsWithin(d, first, expected, other);
      assert Logical(d, other) == Logical(e, other);
    }
    hide Logical, Sound, Finished;
    forall id | id in a.runs ensures NewRun(e, a, id) && Untouched(a.runs[id], a.total) && 1 <= a.runs[id].iteration <= a.total {
      var j :| 0 <= j < |ids| && ids[j] == id;
      forall other ensures !Lists(e, other, id) {
        assert Logical(base, other) == Logical(d, other) == Logical(e, other);
        assert !Lists(base, other, id);
      }
    }
  }

  lemma FinishedGroup(d: Disk, first: ID, expected: nat)
    requires Sound(d) && Finished(d, first, expected)
    ensures CommonTotal(d, expected) && (d.record.Some? ==> d.record.value.repetitions == expected)
  {
    assert WithinTotal(d, first);
  }

  lemma IterationsWithin(d: Disk, first: ID, expected: nat, other: ID)
    requires Sound(d) && Finished(d, first, expected)
    ensures Logical(d, other).Some? ==> Logical(d, other).value.run.iteration <= expected
  {
    assert WithinTotal(d, first) && WithinTotal(d, other);
  }

  lemma StartIsProposed(base: Disk, d: Disk, ids: seq<ID>, repetitions: nat)
    requires Sound(d) && SameView(base, d) && FreshFiles(d, ids) && repetitions >= 1
    requires (forall id :: Logical(base, id).None?) && Distinct(ids) && |ids| == repetitions
    requires if d.record.None? then d.runs == map[] else d.record.value.pending == [] && d.record.value.repetitions == repetitions
    ensures Proposed(d, Appended(ids, 0, repetitions), PreviousTotal(d, [], repetitions))
  {
    var a, e := Appended(ids, 0, repetitions), Based(d, repetitions);
    assert CommonTotal(d, repetitions) && e.record.Some? && e.record.value.repetitions == repetitions;
    assert e.record.value.pending == [] && e.record.value.before == map[];
    forall other ensures Logical(e, other).None? { assert Logical(base, other) == Logical(d, other); }
    hide Logical, Sound, SameView, CommonTotal, NewRun, Untouched;
    assert e.runs == d.runs && e.deleted == d.deleted;
    forall id | id in a.runs ensures NewRun(e, a, id) && Untouched(a.runs[id], a.total) && 1 <= a.runs[id].iteration <= a.total {
      StartIsNew(e, ids, repetitions, id);
    }
  }

  // In an empty group every fresh name can be admitted.
  lemma StartIsNew(e: Disk, ids: seq<ID>, repetitions: nat, id: ID)
    requires Distinct(ids) && |ids| == repetitions && id in ids
    requires id !in e.runs && id !in e.deleted && (e.record.Some? ==> id !in e.record.value.retired)
    requires forall other :: Logical(e, other).None?
    ensures var a := Appended(ids, 0, repetitions);
      NewRun(e, a, id) && Untouched(a.runs[id], a.total) && 1 <= a.runs[id].iteration <= a.total
  {
    hide Logical;
    var a := Appended(ids, 0, repetitions);
    var j :| 0 <= j < |ids| && ids[j] == id;
    forall other | other in a.runs && other != id ensures a.runs[other].iteration != a.runs[id].iteration {
      var k :| 0 <= k < |ids| && ids[k] == other;
    }
  }

  // ------------------------------------------------- resume and retry

  // Idle groups have no running scheduler: a queued or running state is a leftover.
  predicate Interrupted(run: Run) { run.state.Queued? || run.state.Running? }

  predicate Tried(run: Run) { run.started || run.state.FailedRun? || run.state.Completed? }

  predicate Broke(run: Run) { run.state.FailedRun? || (Interrupted(run) && run.started) }

  // A retry takes whatever did not complete; otherwise the iterations after every tried one.
  ghost predicate Taken(retry: bool, d: Disk, id: ID) {
    && Current(d, id)
    && if retry then !Logical(d, id).value.run.state.Completed?
       else forall other :: Current(d, other) && Tried(Logical(d, other).value.run) ==>
         Logical(d, other).value.run.iteration < Logical(d, id).value.run.iteration
  }

  // The files of every attempt that would be taken allow it.
  ghost predicate FilesAllow(retry: bool, d: Disk, fits: ID -> bool) { forall id :: Taken(retry, d, id) ==> fits(id) }

  predicate InRange(d: Disk, id: ID, total: nat)
    requires Logical(d, id).Some?
  {
    Logical(d, id).value.run.total == total && 1 <= Logical(d, id).value.run.iteration <= total
  }

  ghost predicate OneTotal(retry: bool, d: Disk, total: nat) {
    (if retry then 1 else 2) <= total <= MAX_REPETITIONS && forall id :: Current(d, id) ==> InRange(d, id, total)
  }

  ghost predicate Consistent(retry: bool, d: Disk) {
    && (exists total: nat :: OneTotal(retry, d, total))
    && forall x, y :: Current(d, x) && Current(d, y) && x != y ==> Logical(d, x).value.run.iteration != Logical(d, y).value.run.iteration
  }

  // An idle, consistent group that has something to continue.
  ghost predicate Continues(retry: bool, d: Disk, busy: set<ID>) {
    && (forall id :: id in busy ==> Logical(d, id).None?) && Consistent(retry, d)
    && (retry || exists id :: Current(d, id) && Broke(Logical(d, id).value.run))
    && exists id :: Taken(retry, d, id)
  }

  ghost predicate LastTried(d: Disk, last: nat) {
    && (forall id :: Current(d, id) && Tried(Logical(d, id).value.run) ==> Logical(d, id).value.run.iteration <= last)
    && (last == 0 || exists id :: Current(d, id) && Tried(Logical(d, id).value.run) && Logical(d, id).value.run.iteration == last)
  }

  // What is known once these current attempts have been looked at.
  ghost predicate Examined(retry: bool, d: Disk, members: seq<ID>, expected: nat, seen: set<nat>, last: nat, failed: bool) {
    && (forall id :: id in members ==> Logical(d, id).Some? && InRange(d, id, expected))
    && (if members == [] then expected == 0 else (if retry then 1 else 2) <= expected <= MAX_REPETITIONS)
    && (forall j, k :: 0 <= j < k < |members| ==> IterationOf(d, members[j]) != IterationOf(d, members[k]))
    && (forall it: nat :: it in seen <==> exists id :: id in members && IterationOf(d, id) == it)
    && (forall id :: id in members && Tried(Logical(d, id).value.run) ==> IterationOf(d, id) <= last)
    && (last == 0 || exists id :: id in members && Tried(Logical(d, id).value.run) && IterationOf(d, id) == last)
    && (failed <==> exists id :: id in members && Broke(Logical(d, id).value.run))
  }

  lemma NothingExamined(retry: bool, d: Disk, members: seq<ID>)
    ensures Examined(retry, d, members[..0], 0, {}, 0, false)
  {
  }

  lemma ExaminedStep(retry: bool, d: Disk, members: seq<ID>, i: nat, expected: nat, seen: set<nat>, last: nat, failed: bool)
    requires i < |members| && Examined(retry, d, members[..i], expected, seen, last, failed) && Logical(d, members[i]).Some?
    requires var run, total := Logical(d, members[i]).value.run, if expected == 0 then Logical(d, members[i]).value.run.total else expected;
      (if retry then 1 else 2) <= total <= MAX_REPETITIONS && InRange(d, members[i], total) && run.iteration !in seen
    ensures var run := Logical(d, members[i]).value.run;
      Examined(retry, d, members[..i + 1], if expected == 0 then run.total else expected, seen + {run.iteration},
               if Tried(run) then MaxInt(last, run.iteration) else last, failed || Broke(run))
  {
    hide Logical, Tried, Broke;
    var before, x := members[..i], members[i];
    assert members[..i + 1] == before + [x] && x in before + [x];
    assert forall id :: id in before + [x] <==> id in before || id == x;
    assert expected == 0 ==> before == [];
    forall it: nat ensures it in seen + {IterationOf(d, x)} <==> exists id :: id in before + [x] && IterationOf(d, id) == it {
      if it in seen {
        var id :| id in before && IterationOf(d, id) == it;
        assert id in before + [x];
      }
    }
    if last > 0 {
      var id :| id in before && Tried(Logical(d, id).value.run) && IterationOf(d, id) == last;
      assert id in before + [x];
    }
    if failed {
      var id :| id in before && Broke(Logical(d, id).value.run);
      assert id in before + [x];
    }
    forall j, k | 0 <= j < k < |before + [x]| ensures IterationOf(d, (before + [x])[j]) != IterationOf(d, (before + [x])[k]) {
      if k == i { assert before[j] in before; }
    }
  }

  // A failed test contradicts the metadata as a whole.
  lemma NotConsistent(retry: bool, d: Disk, members: seq<ID>, i: nat, expected: nat, seen: set<nat>, last: nat, failed: bool)
    requires Distinct(members) && i < |members| && Examined(retry, d, members[..i], expected, seen, last, failed)
    requires forall id :: id in members <==> Current(d, id)
    requires Logical(d, members[i]).Some?
    requires var run, total := Logical(d, members[i]).value.run, if expected == 0 then Logical(d, members[i]).value.run.total else expected;
      !((if retry then 1 else 2) <= total <= MAX_REPETITIONS && InRange(d, members[i], total) && run.iteration !in seen)
    ensures !Consistent(retry, d)
  {
    hide Logical, Current, Tried, Broke;
    var x := members[i];
    assert x in members;
    var it := IterationOf(d, x);
    if it in seen {
      var id :| id in members[..i] && IterationOf(d, id) == it;
      var j :| 0 <= j < i && members[j] == id;
      assert id in members && Current(d, id) && Current(d, x) && id != x;
    } else {
      var first := if i > 0 then members[0] else x;
      assert first in members && (i > 0 ==> first in members[..i]);
      forall total: nat ensures !OneTotal(retry, d, total) {
        TotalIs(retry, d, total, first);
        TotalIs(retry, d, total, x);
      }
    }
  }

  lemma TotalIs(retry: bool, d: Disk, total: nat, id: ID)
    requires Current(d, id)
    ensures OneTotal(retry, d, total) ==> Logical(d, id).Some? && InRange(d, id, total)
  {
  }

  lemma AllExamined(retry: bool, d: Disk, members: seq<ID>, expected: nat, seen: set<nat>, last: nat, failed: bool)
    requires Examined(retry, d, members, expected, seen, last, failed) && forall id :: id in members <==> Current(d, id)
    ensures Consistent(retry, d) && (members != [] ==> OneTotal(retry, d, expected)) && LastTried(d, last)
    ensures failed <==> exists id :: Current(d, id) && Broke(Logical(d, id).value.run)
  {
    hide Logical, Current, Tried, Broke;
    if members == [] { assert OneTotal(retry, d, 2); } else { assert OneTotal(retry, d, expected); }
    forall x, y | Current(d, x) && Current(d, y) && x != y ensures Logical(d, x).value.run.iteration != Logical(d, y).value.run.iteration {
      var j :| 0 <= j < |members| && members[j] == x;
      var k :| 0 <= k < |members| && members[k] == y;
      assert IterationOf(d, members[j]) != IterationOf(d, members[k]);
    }
  }

  function CurrentRun(d: Disk, members: seq<ID>, i: nat): (run: Run)
    requires i < |members| && AllCurrent(d, members)
    ensures Logical(d, members[i]).Some? && run == Logical(d, members[i]).value.run
  {
    assert members[i] in members;
    Logical(d, members[i]).value.run
  }

  // Which attempts a continuation takes, by what their files say.
  lemma TakenMeans(retry: bool, d: Disk, id: ID)
    ensures Taken(true, d, id) <==> Current(d, id) && !Logical(d, id).value.run.state.Completed?
    ensures Taken(false, d, id) <==>
      && Current(d, id) && !Logical(d, id).value.run.started
      && (Logical(d, id).value.run.state.Queued? || Logical(d, id).value.run.state.Running? || Logical(d, id).value.run.state.Canceled?)
      && forall other :: Current(d, other) && Logical(d, id).value.run.iteration <= Logical(d, other).value.run.iteration ==>
        var run := Logical(d, other).value.run; !run.started && !run.state.FailedRun? && !run.state.Completed?
  {
    hide Logical;
  }

  lemma ContinuesMeans(retry: bool, d: Disk, busy: set<ID>) returns (total: nat)
    requires Continues(retry, d, busy)
    ensures forall id :: id in busy ==> Logical(d, id).None?
    ensures (if retry then 1 else 2) <= total <= 100
    ensures forall id :: Current(d, id) ==> Logical(d, id).value.run.total == total && 1 <= Logical(d, id).value.run.iteration <= total
    ensures !retry ==> exists id :: Current(d, id) && var run := Logical(d, id).value.run;
      run.state.FailedRun? || (run.started && (run.state.Queued? || run.state.Running?))
  {
    total :| OneTotal(retry, d, total);
    hide Logical;
    forall id | Current(d, id) ensures InRange(d, id, total) { }
    if !retry { var id :| Current(d, id) && Broke(Logical(d, id).value.run); }
  }

  // The tests of the program's loop select exactly these.
  lemma TakenIs(retry: bool, d: Disk, id: ID, last: nat)
    requires Current(d, id) && LastTried(d, last) && Logical(d, id).value.run.iteration >= 1
    ensures var run := Logical(d, id).value.run;
      Taken(retry, d, id) <==>
        if retry then !run.state.Completed? else run.iteration > last && !run.started && (run.state.Canceled? || Interrupted(run))
  {
  }

  lemma AnyTaken(retry: bool, d: Disk, members: seq<ID>, chosen: seq<ID>)
    requires forall id :: id in members <==> Current(d, id)
    requires forall id :: id in chosen <==> id in members && Taken(retry, d, id)
    ensures chosen != [] <==> exists id :: Taken(retry, d, id)
    ensures forall id :: id in chosen <==> Taken(retry, d, id)
  {
    hide Current;
    forall id | Taken(retry, d, id) ensures id in members { }
    if chosen != [] { assert chosen[0] in chosen; }
  }

  ghost predicate AllCurrent(d: Disk, ids: seq<ID>) { forall id :: id in ids ==> Logical(d, id).Some? && Current(d, id) }

  function Continued(retry: bool, run: Run, id: ID, expected: nat): Run {
    Run(run.iteration, expected, Queued, false, if retry then run.previous + [id] else run.previous)
  }

  function ContinuedRuns(retry: bool, d: Disk, chosen: seq<ID>, names: seq<ID>, expected: nat): map<ID, Run>
    requires |chosen| <= |names| && forall id :: id in chosen ==> Logical(d, id).Some?
  {
    if chosen == [] then map[]
    else
      var n := |chosen| - 1;
      ContinuedRuns(retry, d, chosen[..n], names, expected)
        [if retry then names[n] else chosen[n] := Continued(retry, Logical(d, chosen[n]).value.run, chosen[n], expected)]
  }

  function Originals(d: Disk, chosen: seq<ID>): map<ID, Run>
    requires forall id :: id in chosen ==> Logical(d, id).Some?
  {
    map id | id in chosen :: Logical(d, id).value.run
  }

  function Continuation(retry: bool, d: Disk, chosen: seq<ID>, names: seq<ID>, expected: nat): Admission
    requires |chosen| <= |names| && forall id :: id in chosen ==> Logical(d, id).Some?
  {
    Admission(if retry then names[..|chosen|] else chosen, ContinuedRuns(retry, d, chosen, names, expected), expected,
              if retry then map[] else Originals(d, chosen))
  }

  lemma NothingAdmitted(trace: seq<Disk>, start: nat, d: Disk, a: Admission)
    requires start <= |trace| && SameSince(trace, start, d)
    ensures Atomic(trace, start, |trace|, d, a)
  {
  }

  lemma {:induction false} DistinctFit(ids: seq<ID>, within: set<ID>)
    requires Distinct(ids) && forall id :: id in ids ==> id in within
    ensures |ids| <= |within|
  {
    if ids != [] {
      var n := |ids| - 1;
      assert ids[n] in within;
      DistinctFit(ids[..n], within - {ids[n]});
    }
  }

  // Which name the k-th continued run gets.
  function NameOf(retry: bool, chosen: seq<ID>, names: seq<ID>, k: nat): ID
    requires k < |chosen| <= |names|
  {
    if retry then names[k] else chosen[k]
  }

  ghost predicate NamedFor(retry: bool, d: Disk, chosen: seq<ID>, names: seq<ID>, expected: nat, k: nat, a: Admission)
    requires k < |chosen| <= |names| && Logical(d, chosen[k]).Some?
  {
    && k < |a.ids| && a.ids[k] == NameOf(retry, chosen, names, k) && a.ids[k] in a.runs
    && a.runs[a.ids[k]] == Continued(retry, Logical(d, chosen[k]).value.run, chosen[k], expected)
  }

  lemma {:induction false} ContinuedRunsAre(retry: bool, d: Disk, chosen: seq<ID>, names: seq<ID>, expected: nat)
    requires |chosen| <= |names| && Distinct(chosen) && Distinct(names) && forall id :: id in chosen ==> Logical(d, id).Some?
    ensures var a := Continuation(retry, d, chosen, names, expected);
      && |a.ids| == |chosen| && Distinct(a.ids) && a.runs.Keys == (set id | id in a.ids)
      && forall k: nat :: k < |chosen| ==> NamedFor(retry, d, chosen, names, expected, k, a)
  {
    hide Logical, Continued, Originals;
    if chosen != [] {
      var n := |chosen| - 1;
      ContinuedRunsAre(retry, d, chosen[..n], names, expected);
      var a, before := Continuation(retry, d, chosen, names, expected), Continuation(retry, d, chosen[..n], names, expected);
      assert a.ids == before.ids + [NameOf(retry, chosen, names, n)];
      forall k: nat | k < |chosen| ensures NamedFor(retry, d, chosen, names, expected, k, a) {
        assert k < n ==> NamedFor(retry, d, chosen[..n], names, expected, k, before);
      }
    }
  }

  // What a continued group shows: each chosen attempt queued again, by itself or as a new
  // run that lists it and what it listed; the others with the common total, retired if retried.
  ghost predicate Requeued(retry: bool, d: Disk, chosen: seq<ID>, names: seq<ID>, expected: nat, e: Disk) {
    && |chosen| <= |names| && (forall k: nat :: k < |chosen| ==> QueuedAgain(retry, d, chosen[k], names[k], expected, e))
    && forall id :: id !in (if retry then names[..|chosen|] else chosen) ==> LeftBehind(retry, d, chosen, expected, e, id)
  }

  ghost predicate QueuedAgain(retry: bool, d: Disk, id: ID, name: ID, expected: nat, e: Disk) {
    && Logical(d, id).Some?
    && (var was := Logical(d, id).value.run;
        Logical(e, if retry then name else id)
          == Some(Member(Run(was.iteration, expected, Queued, false, if retry then was.previous + [id] else was.previous), false)))
  }

  ghost predicate LeftBehind(retry: bool, d: Disk, chosen: seq<ID>, expected: nat, e: Disk, id: ID) {
    Logical(e, id) == if Logical(d, id).None? then None
      else Some(Member(Logical(d, id).value.run.(total := expected), Logical(d, id).value.superseded || Replaced(retry, d, chosen, id)))
  }

  ghost predicate Replaced(retry: bool, d: Disk, chosen: seq<ID>, id: ID) {
    exists k :: 0 <= k < |chosen| && Logical(d, chosen[k]).Some?
      && (id in Logical(d, chosen[k]).value.run.previous || (retry && id == chosen[k]))
  }

  lemma ContinuationMeans(retry: bool, d: Disk, chosen: seq<ID>, names: seq<ID>, expected: nat, e: Disk)
    requires |chosen| <= |names| && Distinct(chosen) && Distinct(names) && forall id :: id in chosen ==> Logical(d, id).Some?
    requires ShowsAdmitted(d, Continuation(retry, d, chosen, names, expected), e)
    ensures Requeued(retry, d, chosen, names, expected, e)
  {
    hide Logical, ShowsAdmitted, Continuation, Distinct, QueuedAgain, LeftBehind;
    forall k: nat | k < |chosen| ensures QueuedAgain(retry, d, chosen[k], names[k], expected, e) {
      ChosenShows(retry, d, chosen, names, expected, e, k);
    }
    forall id | id !in (if retry then names[..|chosen|] else chosen) ensures LeftBehind(retry, d, chosen, expected, e, id) {
      OtherShows(retry, d, chosen, names, expected, e, id);
    }
  }

  lemma ChosenShows(retry: bool, d: Disk, chosen: seq<ID>, names: seq<ID>, expected: nat, e: Disk, k: nat)
    requires k < |chosen| <= |names| && Distinct(chosen) && Distinct(names) && forall id :: id in chosen ==> Logical(d, id).Some?
    requires ShowsAdmitted(d, Continuation(retry, d, chosen, names, expected), e)
    ensures QueuedAgain(retry, d, chosen[k], names[k], expected, e)
  {
    ContinuedRunsAre(retry, d, chosen, names, expected);
    assert NamedFor(retry, d, chosen, names, expected, k, Continuation(retry, d, chosen, names, expected));
    hide Logical, Continuation, Retries;
  }

  lemma OtherShows(retry: bool, d: Disk, chosen: seq<ID>, names: seq<ID>, expected: nat, e: Disk, id: ID)
    requires |chosen| <= |names| && Distinct(chosen) && Distinct(names) && forall x :: x in chosen ==> Logical(d, x).Some?
    requires ShowsAdmitted(d, Continuation(retry, d, chosen, names, expected), e)
    requires id !in (if retry then names[..|chosen|] else chosen)
    ensures LeftBehind(retry, d, chosen, expected, e, id)
  {
    AreNamed(retry, d, chosen, names, expected, id);
    RetriesAre(retry, d, chosen, names, expected, id);
    hide Logical, ContinuedRuns, Retries, Replaced;
  }

  lemma AreNamed(retry: bool, d: Disk, chosen: seq<ID>, names: seq<ID>, expected: nat, id: ID)
    requires |chosen| <= |names| && Distinct(chosen) && Distinct(names) && forall x :: x in chosen ==> Logical(d, x).Some?
    ensures id in Continuation(retry, d, chosen, names, expected).runs <==> id in (if retry then names[..|chosen|] else chosen)
  {
    ContinuedRunsAre(retry, d, chosen, names, expected);
    hide ContinuedRuns, Logical, NamedFor;
  }

  // The k-th continued run, by what it lists.
  lemma NamedLists(retry: bool, d: Disk, chosen: seq<ID>, names: seq<ID>, expected: nat, k: nat)
    requires k < |chosen| <= |names| && Distinct(chosen) && Distinct(names) && forall x :: x in chosen ==> Logical(d, x).Some?
    ensures var a := Continuation(retry, d, chosen, names, expected);
      && |a.ids| == |chosen| && a.ids[k] in a.runs && Logical(d, chosen[k]).Some?
      && forall id :: id in a.runs[a.ids[k]].previous <==> id in Logical(d, chosen[k]).value.run.previous || (retry && id == chosen[k])
  {
    ContinuedRunsAre(retry, d, chosen, names, expected);
    assert NamedFor(retry, d, chosen, names, expected, k, Continuation(retry, d, chosen, names, expected));
    hide Continuation, Logical;
  }

  lemma RetriesAre(retry: bool, d: Disk, chosen: seq<ID>, names: seq<ID>, expected: nat, id: ID)
    requires |chosen| <= |names| && Distinct(chosen) && Distinct(names) && forall x :: x in chosen ==> Logical(d, x).Some?
    ensures id in Retries(Continuation(retry, d, chosen, names, expected)) <==> Replaced(retry, d, chosen, id)
  {
    var a := Continuation(retry, d, chosen, names, expected);
    ContinuedRunsAre(retry, d, chosen, names, expected);
    hide Logical, Continuation, NamedFor, Distinct;
    if id in Retries(a) {
      var x :| x in a.runs && id in a.runs[x].previous;
      var k :| 0 <= k < |a.ids| && a.ids[k] == x;
      NamedLists(retry, d, chosen, names, expected, k);
    } else if Replaced(retry, d, chosen, id) {
      var k :| 0 <= k < |chosen| && Logical(d, chosen[k]).Some? && (id in Logical(d, chosen[k]).value.run.previous || (retry && id == chosen[k]));
      NamedLists(retry, d, chosen, names, expected, k);
    }
  }

  lemma OrderedSame(d: Disk, e: Disk, members: seq<ID>)
    requires InOrder(e, members) && forall id :: Logical(d, id) == Logical(e, id)
    ensures InOrder(d, members)
  {
    hide Logical;
  }

  lemma ContinuationIsProposed(retry: bool, base: Disk, d: Disk, members: seq<ID>, chosen: seq<ID>, names: seq<ID>, expected: nat)
    requires Sound(d) && SameView(base, d) && FreshNames(base, names) && FreshFiles(d, names) && Distinct(names)
    requires d.record.None? || d.record.value.pending == []
    requires chosen != [] && Distinct(chosen) && |chosen| <= |names| && 1 <= expected
    requires AllCurrent(d, members) && AllCurrent(d, chosen)
    requires forall id :: id in chosen ==> id in members
    requires forall id :: id in members ==> Logical(d, id).value.run.total == expected
    ensures AllCurrent(base, chosen) && Continuation(retry, d, chosen, names, expected) == Continuation(retry, base, chosen, names, expected)
    ensures Continuation(retry, d, chosen, names, expected).total == expected
    ensures Proposed(d, Continuation(retry, d, chosen, names, expected), PreviousTotal(d, members, expected))
  {
    hide Logical, Current, SameView, Sound, FreshNames, FreshFiles, Continuation, NewRun, RewrittenRun, Untouched;
    hide PreviousTotal, Based, CommonTotal, NamedFor;
    var a, e := Continuation(retry, d, chosen, names, expected), Based(d, expected);
    ContinuationSame(retry, base, d, chosen, names, expected);
    ContinuedRunsAre(retry, d, chosen, names, expected);
    assert chosen[0] in chosen;
    ContinuedGroup(retry, d, members, chosen[0], expected);
    ContinuedOriginals(retry, d, chosen, names, expected);
    forall id | id in a.runs
      ensures Untouched(a.runs[id], expected) && 1 <= a.runs[id].iteration <= expected
      ensures if retry then NewRun(e, a, id) else RewrittenRun(e, a, id)
    {
      var k :| 0 <= k < |a.ids| && a.ids[k] == id;
      ContinuedIsAdmissible(retry, base, d, e, members, chosen, names, expected, k);
    }
  }

  lemma ContinuedGroup(retry: bool, d: Disk, members: seq<ID>, id: ID, expected: nat)
    requires Sound(d) && AllCurrent(d, members) && id in members && 1 <= expected
    requires d.record.None? || d.record.value.pending == []
    requires forall id :: id in members ==> Logical(d, id).value.run.total == expected
    ensures PreviousTotal(d, members, expected) == expected && CommonTotal(d, expected)
    ensures var e := Based(d, expected);
      && SameView(d, e) && e.record.Some? && e.record.value.pending == [] && e.record.value.before == map[]
      && 1 <= e.record.value.repetitions <= expected
  {
    assert members[0] in members && Logical(d, id).Some?;
    BasedShows(d, expected);
  }

  lemma ContinuedOriginals(retry: bool, d: Disk, chosen: seq<ID>, names: seq<ID>, expected: nat)
    requires |chosen| <= |names| && Distinct(chosen) && Distinct(names) && AllCurrent(d, chosen) && chosen != []
    ensures var a := Continuation(retry, d, chosen, names, expected);
      a.total == expected && (a.before == map[] <==> retry) && (!retry ==> a.before.Keys == a.runs.Keys)
  {
    ContinuedRunsAre(retry, d, chosen, names, expected);
    assert chosen[0] in Originals(d, chosen);
  }

  lemma ContinuedIsAdmissible(retry: bool, base: Disk, d: Disk, e: Disk, members: seq<ID>, chosen: seq<ID>, names: seq<ID>, expected: nat, k: nat)
    requires Sound(d) && SameView(base, d) && SameView(d, e) && e == Based(d, expected)
    requires FreshNames(base, names) && FreshFiles(d, names) && Distinct(names)
    requires Distinct(chosen) && k < |chosen| <= |names| && AllCurrent(d, chosen)
    requires Logical(d, chosen[k]).value.run.total == expected && 1 <= expected
    ensures var a := Continuation(retry, d, chosen, names, expected);
      k < |a.ids| && a.ids[k] in a.runs && Untouched(a.runs[a.ids[k]], expected) && 1 <= a.runs[a.ids[k]].iteration <= expected
      && if retry then NewRun(e, a, a.ids[k]) else RewrittenRun(e, a, a.ids[k])
  {
    ContinuedRunsAre(retry, d, chosen, names, expected);
    assert NamedFor(retry, d, chosen, names, expected, k, Continuation(retry, d, chosen, names, expected));
    assert chosen[k] in chosen && WithinTotal(d, chosen[k]);
    hide Continuation, NewRun, RewrittenRun, SameView, FreshNames, FreshFiles, AllCurrent;
    if retry {
      RetryIsNew(base, d, e, chosen, names, expected, k);
    } else {
      RequeueIsRewrite(d, e, chosen, names, expected, k);
    }
  }

  lemma {:induction false} ContinuationSame(retry: bool, base: Disk, d: Disk, chosen: seq<ID>, names: seq<ID>, expected: nat)
    requires SameView(base, d) && |chosen| <= |names| && AllCurrent(d, chosen)
    ensures AllCurrent(base, chosen) && Continuation(retry, d, chosen, names, expected) == Continuation(retry, base, chosen, names, expected)
  {
    forall id | id in chosen ensures Logical(base, id) == Logical(d, id) && Current(base, id) {
      CurrentSame(base, d, id);
    }
    if chosen != [] {
      ContinuationSame(retry, base, d, chosen[..|chosen| - 1], names, expected);
    }
  }

  lemma CurrentSame(d: Disk, e: Disk, id: ID)
    requires SameView(d, e)
    ensures Logical(d, id) == Logical(e, id) && (Current(d, id) <==> Current(e, id))
    ensures forall other :: Lists(d, other, id) <==> Lists(e, other, id)
  {
    forall other ensures Lists(d, other, id) <==> Lists(e, other, id) {
      assert Logical(d, other) == Logical(e, other);
    }
  }

  lemma ContinuesSame(retry: bool, d: Disk, e: Disk, busy: set<ID>, total: nat)
    requires SameView(d, e) && Continues(retry, e, busy) && OneTotal(retry, e, total)
    ensures Continues(retry, d, busy) && OneTotal(retry, d, total) && forall id :: Taken(retry, d, id) <==> Taken(retry, e, id)
  {
    forall id ensures Logical(d, id) == Logical(e, id) && (Current(d, id) <==> Current(e, id)) { CurrentSame(d, e, id); }
    hide SameView, Logical, Current;
    assert OneTotal(retry, d, total);
    forall id ensures Taken(retry, d, id) <==> Taken(retry, e, id) { }
    hide Taken;
    var id :| Taken(retry, e, id);
    assert Taken(retry, d, id);
    if !retry {
      var x :| Current(e, x) && Broke(Logical(e, x).value.run);
      assert Current(d, x);
    }
  }

  lemma ContinuesAlike(retry: bool, d: Disk, e: Disk, busy: set<ID>, fits: ID -> bool)
    requires SameView(d, e)
    ensures Continues(retry, d, busy) && FilesAllow(retry, d, fits) <==> Continues(retry, e, busy) && FilesAllow(retry, e, fits)
  {
    hide Logical, Taken, OneTotal;
    assert SameView(e, d);
    hide SameView;
    if Continues(retry, e, busy) {
      var total: nat :| OneTotal(retry, e, total);
      ContinuesSame(retry, d, e, busy, total);
    }
    if Continues(retry, d, busy) {
      var total: nat :| OneTotal(retry, d, total);
      ContinuesSame(retry, e, d, busy, total);
    }
  }

  // What decides an extension is in the view.
  lemma ExtendableSame(d: Disk, e: Disk, active: set<ID>, expected: int)
    requires SameView(d, e)
    ensures (Idle(d, active) <==> Idle(e, active)) && (Extendable(d, expected) <==> Extendable(e, expected))
    ensures forall id :: Logical(d, id) == Logical(e, id)
  {
    forall id ensures Logical(d, id) == Logical(e, id) && (Current(d, id) <==> Current(e, id)) { CurrentSame(d, e, id); }
    CurrentIsStored(d);
    CurrentIsStored(e);
    hide SameView, Logical, Current;
    assert CurrentRuns(d) == CurrentRuns(e);
  }

  lemma StillFresh(d: Disk, e: Disk, ids: seq<ID>)
    requires FreshNames(d, ids) && e.runs.Keys <= d.runs.Keys && e.deleted == d.deleted && Retired(e) == Retired(d)
    ensures FreshFiles(e, ids)
  {
  }

  lemma RetryIsNew(base: Disk, d: Disk, e: Disk, chosen: seq<ID>, names: seq<ID>, expected: nat, k: nat)
    requires Sound(d) && SameView(base, d) && SameView(d, e) && e == Based(d, expected)
    requires FreshNames(base, names) && FreshFiles(d, names) && Distinct(names)
    requires Distinct(chosen) && k < |chosen| <= |names| && AllCurrent(d, chosen)
    ensures NewRun(e, Continuation(true, d, chosen, names, expected), names[k])
  {
    var a, id := Continuation(true, d, chosen, names, expected), names[k];
    ContinuedRunsAre(true, d, chosen, names, expected);
    assert NamedFor(true, d, chosen, names, expected, k, a) && id in names;
    CurrentSame(base, d, id);
    CurrentSame(d, e, id);
    forall x | x in a.runs
      ensures id !in a.runs[x].previous && (x != id ==> a.runs[x].iteration != a.runs[id].iteration)
    {
      var j :| 0 <= j < |a.ids| && a.ids[j] == x;
      assert NamedFor(true, d, chosen, names, expected, j, a) && chosen[j] in chosen && chosen[k] in chosen;
      assert !Lists(d, chosen[j], id) && chosen[j] in d.runs;
      if Logical(d, chosen[j]).value.run.iteration == Logical(d, chosen[k]).value.run.iteration { OneCurrentAttempt(d, chosen[j], chosen[k]); }
    }
    forall other | Logical(e, other).Some? && Logical(e, other).value.run.iteration == a.runs[id].iteration
      ensures other in a.runs[id].previous
    {
      assert Logical(d, other) == Logical(e, other) && chosen[k] in chosen;
      assert other != chosen[k] ==> Attempts(d, other, chosen[k]);
      assert !Lists(d, other, chosen[k]);
    }
  }

  lemma RequeueIsRewrite(d: Disk, e: Disk, chosen: seq<ID>, names: seq<ID>, expected: nat, k: nat)
    requires Sound(d) && SameView(d, e) && Distinct(names)
    requires Distinct(chosen) && k < |chosen| <= |names| && AllCurrent(d, chosen)
    ensures RewrittenRun(e, Continuation(false, d, chosen, names, expected), chosen[k])
  {
    var a, id := Continuation(false, d, chosen, names, expected), chosen[k];
    ContinuedRunsAre(false, d, chosen, names, expected);
    assert NamedFor(false, d, chosen, names, expected, k, a) && id in chosen;
    CurrentSame(d, e, id);
    forall x | x in a.runs ensures id !in a.runs[x].previous {
      var j :| 0 <= j < |a.ids| && a.ids[j] == x;
      assert NamedFor(false, d, chosen, names, expected, j, a) && chosen[j] in chosen;
      assert !Lists(d, x, id) && WithinTotal(d, id);
    }
  }

  // A first record with the group's common total shows what readers saw without it.
  lemma BasedShows(d: Disk, total: nat)
    requires Sound(d) && total >= 1
    requires d.record.None? ==> exists id :: Logical(d, id).Some? && Logical(d, id).value.run.total == total
    ensures d.record.None? ==> forall id :: Restored(d, id).Some? ==> Restored(d, id).value.total == total
    ensures SameView(d, Based(d, total))
    ensures d.record.Some? && d.record.value.pending == [] ==> d.record.value.before == map[]
  {
    if d.record.None? { FirstRecordKeeps(d, total); }
  }

  ghost predicate FreshFiles(d: Disk, ids: seq<ID>) {
    forall id :: id in ids ==> id !in d.runs && id !in d.deleted && id !in Retired(d)
  }

  lemma AtomicJoins(trace: seq<Disk>, start: nat, k: nat, cut: nat, base: Disk, d: Disk, a: Admission)
    requires start <= k <= |trace| && SameView(base, d) && SameSince(trace[..k], start, base) && Atomic(trace, k, cut, d, a)
    ensures Atomic(trace, start, cut, base, a)
  {
    hide SameView, ShowsAdmitted;
    forall i | start <= i < cut ensures SameView(base, trace[i]) {
      if i < k { assert trace[i] == trace[..k][i]; } else { SameTransitively(base, d, trace[i]); }
    }
    forall i | cut <= i < |trace| ensures ShowsAdmitted(base, a, trace[i]) { ShowsSame(d, base, a, trace[i]); }
  }

  function PreviousTotal(d: Disk, members: seq<ID>, total: nat): nat
    requires forall m :: m in members ==> Logical(d, m).Some?
  {
    if members == [] then total else Logical(d, members[0]).value.run.total
  }

  function Based(d: Disk, total: nat): Disk { if d.record.Some? then d else d.(record := Some(FirstRecord(total))) }

  // A group without a record gets one with its members' common total.
  ghost predicate Proposed(d: Disk, a: Admission, total: nat) {
    CommonTotal(d, total) && Admissible(Based(d, total), a)
  }

  ghost predicate Remembered(d: Disk, a: Admission, id: ID)
    requires id in a.runs
  {
    d.record.Some? && a.runs[id].iteration in d.record.value.current && d.record.value.current[a.runs[id].iteration] == id
  }

  ghost predicate DistinctIterations(a: Admission) {
    forall x, y :: x in a.runs && y in a.runs && x != y ==> a.runs[x].iteration != a.runs[y].iteration
  }

  lemma BasedKeeps(d: Disk, a: Admission, total: nat)
    requires Sound(d) && Proposed(d, a, total)
    ensures Sound(Based(d, total)) && SameView(d, Based(d, total))
  {
    if d.record.None? { FirstRecordKeeps(d, total); }
  }

  ghost predicate Shaped(d: Disk, a: Admission) {
    && Distinct(a.ids) && d.record.Some?
    && (forall id :: id in a.ids ==> id in a.runs && Untouched(a.runs[id], a.total))
    && forall id :: id in a.ids ==> if a.before == map[] then id !in d.runs else id in d.runs
  }

  lemma AdmissibleShape(d: Disk, a: Admission)
    requires Chained(d) && Admissible(d, a)
    ensures Shaped(d, a) && DistinctIterations(a) && a.runs.Keys == (set id | id in a.ids)
  {
    forall x, y | x in a.runs && y in a.runs && x != y ensures a.runs[x].iteration != a.runs[y].iteration {
      assert a.before == map[] ==> NewRun(d, a, x);
      assert a.before != map[] ==> RewrittenRun(d, a, x) && RewrittenRun(d, a, y);
      if a.before != map[] && a.runs[x].iteration == a.runs[y].iteration { OneCurrentAttempt(d, x, y); }
    }
    forall id | id in a.ids ensures if a.before == map[] then id !in d.runs else id in d.runs {
      assert id in a.runs;
      assert a.before == map[] ==> NewRun(d, a, id);
      assert a.before != map[] ==> RewrittenRun(d, a, id);
    }
  }

  lemma PreparedNow(d: Disk, a: Admission, base: Disk, e: Disk)
    requires SameView(base, d) && SameView(base, e) && Sound(e) && e.deleted == d.deleted
    requires d.record.Some? && Journaled(e, a) && Written(e, a, |a.ids|)
    requires e.record.value.retired == d.record.value.retired && e.record.value.repetitions == d.record.value.repetitions
    ensures Prepared(d, a, e)
  {
    forall id ensures Logical(d, id) == Logical(e, id) {
      assert Logical(base, id) == Logical(d, id) && Logical(base, id) == Logical(e, id);
    }
  }

  lemma CommitKeeps(d: Disk, a: Admission, e: Disk, current: map<nat, ID>)
    requires Sound(d) && Admissible(d, a) && Prepared(d, a, e)
    ensures var f := e.(record := Some(Committed(e.record.value, a, current)));
      ShowsAdmitted(d, a, f) && Sound(f)
  {
    CommitShowsAll(d, a, e, current);
    AdmittedIsChained(d, a, e.(record := Some(Committed(e.record.value, a, current))));
  }

  lemma ShowsSame(d: Disk, base: Disk, a: Admission, e: Disk)
    requires SameView(base, d) && ShowsAdmitted(d, a, e)
    ensures ShowsAdmitted(base, a, e)
  {
    forall id ensures Logical(e, id) == Admitted(base, a, id) {
      assert Logical(e, id) == Admitted(d, a, id) && Logical(base, id) == Logical(d, id);
    }
  }

  lemma SinceJoins(trace: seq<Disk>, start: nat, so: nat, base: Disk, d: Disk)
    requires start <= so <= |trace| && SameSince(trace[..so], start, base) && SameView(base, d) && SameSince(trace, so, d)
    ensures SameSince(trace, start, base)
  {
    hide SameView;
    forall i | start <= i < |trace| ensures SameView(base, trace[i]) {
      if i < so { assert trace[i] == trace[..so][i]; } else { SameTransitively(base, d, trace[i]); }
    }
  }

  ghost predicate Journaled(d: Disk, a: Admission) {
    && d.record.Some? && d.record.value.pending == a.ids && d.record.value.before == a.before && d.record.value.pendingTotal == a.total
    && forall id :: id in a.ids ==> id in a.runs && Untouched(a.runs[id], a.total)
  }

  ghost predicate Written(d: Disk, a: Admission, k: nat) {
    k <= |a.ids| && forall j :: 0 <= j < k ==> a.ids[j] in a.runs && a.ids[j] in d.runs && d.runs[a.ids[j]] == Some(a.runs[a.ids[j]])
  }

  ghost predicate PendingContent(d: Disk, id: ID, content: Option<Option<Run>>)
    requires IsPending(d, id)
  {
    var r := d.record.value;
    if r.before == map[] then content.Some? && content.value.Some? ==> Untouched(content.value.value, r.pendingTotal)
    else content.Some? && id in d.runs
  }

  ghost predicate OthersKept(d: Disk, e: Disk, id: ID) {
    forall other :: other != id && other in e.runs ==> other in d.runs && e.runs[other] == d.runs[other]
  }

  ghost predicate UndoneAt(d: Disk, id: ID) {
    d.record.Some? && (id in d.runs ==> id in d.record.value.before && d.runs[id] == Some(d.record.value.before[id]))
  }

  lemma UndoneStays(d: Disk, e: Disk, pending: seq<ID>, i: nat)
    requires i < |pending| && e == d.(runs := e.runs) && OthersKept(d, e, pending[i])
    requires forall j :: 0 <= j < i ==> UndoneAt(d, pending[j])
    ensures UndoneAt(e, pending[i]) ==> forall j :: 0 <= j <= i ==> UndoneAt(e, pending[j])
  {
  }

  lemma PendingIsExpected(d: Disk, id: ID)
    requires Sound(d) && IsPending(d, id)
    ensures d.record.value.before != map[] ==> id in d.record.value.before
    ensures d.record.value.before == map[] && id in d.runs && d.runs[id].Some? ==> Untouched(d.runs[id].value, d.record.value.pendingTotal)
  {
  }

  lemma SameReflexively(d: Disk)
    ensures SameView(d, d)
  {
  }

  lemma SameTransitively(a: Disk, b: Disk, c: Disk)
    requires SameView(a, b) && SameView(b, c)
    ensures SameView(a, c)
  {
    forall id ensures Logical(a, id) == Logical(c, id) {
      assert Logical(a, id) == Logical(b, id) && Logical(b, id) == Logical(c, id);
    }
  }
}
