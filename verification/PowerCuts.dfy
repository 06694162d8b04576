/** Admissions and power cuts. A power cut keeps, of every file that was not synced yet, any
    content it had since it was. The journal, the run files and the final record are synced in
    an order that leaves the old group or the whole admission. Steps are single file operations
    in any order the guards allow, so they cover every crash, restart and repeated recovery.
 */
module PowerCuts {
  import opened Model
  import opened BatchAdmission

  // What a power cut can leave of a run: nothing, a directory without metadata, metadata that
  // was renamed into place before its bytes were written, or a run.
  datatype File = Absent | Bare | Torn | Full(run: Run)

  // An admission to the group on `base`, and the current attempts that its two records name.
  datatype Plan = Plan(base: Disk, total: nat, a: Admission, filled: map<nat, ID>, current: map<nat, ID>)

  // Which record the group has: its old one, the journal, the final one, or the journal undone.
  datatype Stage = Was | Pending | Done | Undone

  // As the file system shows it, and everything a power cut can keep instead.
  datatype State = State(stage: Stage, stages: set<Stage>, now: map<ID, File>, kept: map<ID, set<File>>)

  ghost predicate Planned(p: Plan) { Sound(p.base) && Proposed(p.base, p.a, p.total) }

  function Ground(p: Plan): Disk { Based(p.base, p.total) }

  function RecordAt(p: Plan, stage: Stage): Option<Record> {
    var journal := Journal(Ground(p).record.value, p.a).(current := p.filled);
    match stage
    case Was => p.base.record
    case Pending => Some(journal)
    case Done => Some(Committed(journal, p.a, p.current))
    case Undone => Some(Cleared(journal))
  }

  predicate New(p: Plan) { p.a.before == map[] }

  function BaseFile(p: Plan, id: ID): File {
    if id !in p.base.runs then Absent else match p.base.runs[id] case None => Bare case Some(run) => Full(run)
  }

  // The run file that the admission writes, and the one that its rollback leaves.
  function NewFile(p: Plan, id: ID): File { if id in p.a.runs then Full(p.a.runs[id]) else Absent }

  function OldFile(p: Plan, id: ID): File { if id in p.a.before then Full(p.a.before[id]) else Absent }

  function Content(f: File): Option<Run> { if f.Full? then Some(f.run) else None }

  function Image(p: Plan, stage: Stage, files: map<ID, File>): Disk {
    Disk(map id | id in files && !files[id].Absent? :: Content(files[id]), RecordAt(p, stage), p.base.deleted)
  }

  ghost predicate Picks(kept: map<ID, set<File>>, files: map<ID, File>) {
    files.Keys == kept.Keys && forall id :: id in files ==> files[id] in kept[id]
  }

  // ------------------------------------------------------------------ steps

  function Start(p: Plan): State {
    var ids := p.base.runs.Keys + set id | id in p.a.ids;
    State(Was, {Was}, map id | id in ids :: BaseFile(p, id), map id | id in ids :: {BaseFile(p, id)})
  }

  predicate Only(s: State, id: ID, f: File) { id in s.now && id in s.kept && s.now[id] == f && s.kept[id] == {f} }

  function Wrote(s: State, id: ID, f: File, torn: bool): State
    requires id in s.kept
  {
    s.(now := s.now[id := f], kept := s.kept[id := s.kept[id] + {f} + if torn then {Torn} else {}])
  }

  function WroteRecord(s: State, stage: Stage): State { s.(stage := stage, stages := s.stages + {stage}) }

  // All run files are synced.
  function Flushed(s: State): State { s.(kept := map id | id in s.now :: {s.now[id]}) }

  // A new directory is made and then filled, a rewritten run is replaced by a synced file.
  ghost predicate Put(p: Plan, s: State, t: State, id: ID) {
    && s.stage.Pending? && s.stages == {Pending} && id in p.a.ids && id in s.kept
    && (t == Wrote(s, id, NewFile(p, id), New(p)) || (New(p) && t == Wrote(s, id, Bare, false)))
  }

  // Rollback empties and removes a new directory, and refuses one whose metadata it cannot read.
  ghost predicate Undo(p: Plan, s: State, t: State, id: ID) {
    && s.stage.Pending? && id in p.a.ids && id in s.kept && id in s.now
    && if New(p)
       then (s.now[id].Full? && t == Wrote(s, id, Bare, false)) || (s.now[id].Bare? && t == Wrote(s, id, Absent, false))
       else t == Wrote(s, id, OldFile(p, id), false)
  }

  ghost predicate Recovers(p: Plan, s: State, t: State) {
    || (exists id :: Undo(p, s, t, id))
    || t == Flushed(s)
    || t == s.(stages := {s.stage})
    || (s.stage.Pending? && (forall id :: id in p.a.ids ==> Only(s, id, OldFile(p, id))) && t == WroteRecord(s, Undone))
  }

  ghost predicate PowerCut(s: State, t: State) {
    && t.stage in s.stages && t.stages == {t.stage} && Picks(s.kept, t.now)
    && t.kept == Flushed(t).kept
  }

  ghost predicate Step(p: Plan, s: State, t: State) {
    || (s.stage.Was? && t == WroteRecord(s, Pending))
    || (exists id :: Put(p, s, t, id))
    || (s.stage.Pending? && s.stages == {Pending} && (forall id :: id in p.a.ids ==> Only(s, id, NewFile(p, id))) && t == WroteRecord(s, Done))
    || Recovers(p, s, t)
    || PowerCut(s, t)
  }

  ghost predicate Steps(p: Plan, run: seq<State>) {
    run != [] && run[0] == Start(p) && forall i :: 0 < i < |run| ==> Step(p, run[i - 1], run[i])
  }

  // ------------------------------------------------------------- invariant

  // Files that read as before under a record without a journal.
  function Before(p: Plan, id: ID): set<File> { {BaseFile(p, id), OldFile(p, id)} }

  function Possible(p: Plan, id: ID): set<File> { Before(p, id) + {NewFile(p, id)} + if New(p) then {Bare, Torn} else {} }

  ghost predicate Stages(s: State) {
    && s.stage in s.stages
    && match s.stage
       case Was => s.stages == {Was}
       case Pending => s.stages <= {Was, Pending}
       case Done => s.stages <= {Pending, Done}
       case Undone => s.stages <= {Was, Pending, Undone}
  }

  ghost predicate FileInv(p: Plan, s: State, id: ID)
    requires id in s.now && id in s.kept
  {
    && s.now[id] in s.kept[id]
    && if id in p.a.ids
       then && s.kept[id] <= Possible(p, id)
            && (Was in s.stages || Undone in s.stages ==> s.kept[id] <= Before(p, id))
            && (Done in s.stages ==> s.kept[id] == {NewFile(p, id)})
       else s.kept[id] == {BaseFile(p, id)}
  }

  ghost predicate Inv(p: Plan, s: State) {
    && Stages(s) && s.now.Keys == s.kept.Keys == p.base.runs.Keys + (set id | id in p.a.ids)
    && forall id :: id in s.kept ==> FileInv(p, s, id)
  }

  lemma StartIsInv(p: Plan)
    requires Planned(p)
    ensures Inv(p, Start(p))
  {
  }

  lemma WroteKeeps(p: Plan, s: State, id: ID, f: File, torn: bool)
    requires Inv(p, s) && id in p.a.ids && id in s.kept && s.stage.Pending?
    requires f in Possible(p, id) && (torn ==> New(p)) && (Was in s.stages ==> f in Before(p, id) && !torn)
    ensures Inv(p, Wrote(s, id, f, torn))
  {
    hide BaseFile, NewFile, OldFile;
  }

  lemma UndoKeeps(p: Plan, s: State, t: State, id: ID)
    requires Planned(p) && Inv(p, s) && Undo(p, s, t, id)
    ensures Inv(p, t)
  {
    NewIsAbsent(p, id);
    assert FileInv(p, s, id);
    if New(p) {
      if s.now[id].Full? { WroteKeeps(p, s, id, Bare, false); } else { WroteKeeps(p, s, id, Absent, false); }
    } else {
      WroteKeeps(p, s, id, OldFile(p, id), false);
    }
  }

  // A new run has no directory yet, a rewritten one is a stored member.
  lemma NewIsAbsent(p: Plan, id: ID)
    requires Planned(p) && id in p.a.ids
    ensures id in p.a.runs
    ensures New(p) ==> BaseFile(p, id) == OldFile(p, id) == Absent
    ensures !New(p) ==> id in p.a.before && BaseFile(p, id).Full?
    ensures Untouched(p.a.runs[id], p.a.total) && (!New(p) ==> p.a.before.Keys == set x | x in p.a.ids)
  {
    var d := Ground(p);
    if New(p) { assert NewRun(d, p.a, id); } else { assert RewrittenRun(d, p.a, id) && Current(d, id); }
  }

  lemma PutKeeps(p: Plan, s: State, t: State, id: ID)
    requires Inv(p, s) && Put(p, s, t, id)
    ensures Inv(p, t)
  {
    if t == Wrote(s, id, NewFile(p, id), New(p)) { WroteKeeps(p, s, id, NewFile(p, id), New(p)); } else { WroteKeeps(p, s, id, Bare, false); }
  }

  lemma FlushKeeps(p: Plan, s: State)
    requires Inv(p, s)
    ensures Inv(p, Flushed(s))
  {
    forall id | id in s.kept ensures FileInv(p, Flushed(s), id) { assert FileInv(p, s, id); }
  }

  lemma RecordKeeps(p: Plan, s: State, stage: Stage)
    requires Inv(p, s)
    requires match stage
      case Was => false
      case Pending => s.stage.Was?
      case Done => s.stage.Pending? && s.stages == {Pending} && forall id :: id in p.a.ids ==> Only(s, id, NewFile(p, id))
      case Undone => s.stage.Pending? && forall id :: id in p.a.ids ==> Only(s, id, OldFile(p, id))
    ensures Inv(p, WroteRecord(s, stage))
  {
    hide NewFile, OldFile, BaseFile;
    forall id | id in s.kept ensures FileInv(p, WroteRecord(s, stage), id) {
      assert FileInv(p, s, id);
    }
  }

  lemma SyncKeeps(p: Plan, s: State)
    requires Inv(p, s)
    ensures Inv(p, s.(stages := {s.stage}))
  {
    forall id | id in s.kept ensures FileInv(p, s.(stages := {s.stage}), id) { assert FileInv(p, s, id); }
  }

  lemma CutKeeps(p: Plan, s: State, t: State)
    requires Inv(p, s) && PowerCut(s, t)
    ensures Inv(p, t)
  {
    forall id | id in t.kept ensures FileInv(p, t, id) { assert FileInv(p, s, id); }
  }

  lemma StepKeepsInv(p: Plan, s: State, t: State)
    requires Planned(p) && Inv(p, s) && Step(p, s, t)
    ensures Inv(p, t)
  {
    hide Inv, Planned, Put, Undo, Flushed, WroteRecord, Only, NewFile, OldFile;
    if s.stage.Was? && t == WroteRecord(s, Pending) {
      RecordKeeps(p, s, Pending);
    } else if id :| Put(p, s, t, id) {
      PutKeeps(p, s, t, id);
    } else if id :| Undo(p, s, t, id) {
      UndoKeeps(p, s, t, id);
    } else if t == Flushed(s) {
      FlushKeeps(p, s);
    } else if t == s.(stages := {s.stage}) {
      SyncKeeps(p, s);
    } else if s.stage.Pending? && t == WroteRecord(s, Done) && s.stages == {Pending} && forall id :: id in p.a.ids ==> Only(s, id, NewFile(p, id)) {
      RecordKeeps(p, s, Done);
    } else if s.stage.Pending? && t == WroteRecord(s, Undone) && forall id :: id in p.a.ids ==> Only(s, id, OldFile(p, id)) {
      RecordKeeps(p, s, Undone);
    } else {
      CutKeeps(p, s, t);
    }
  }

  lemma {:induction false} RunKeepsInv(p: Plan, run: seq<State>, i: nat)
    requires Planned(p) && Steps(p, run) && i < |run|
    ensures Inv(p, run[i])
  {
    if i == 0 {
      StartIsInv(p);
    } else {
      RunKeepsInv(p, run, i - 1);
      StepKeepsInv(p, run[i - 1], run[i]);
    }
  }

  // ----------------------------------------------------------------- views

  ghost predicate Fits(p: Plan, stage: Stage, files: map<ID, File>) {
    && files.Keys == p.base.runs.Keys + (set id | id in p.a.ids)
    && forall id :: id in files ==> FileFits(p, stage, id, files[id])
  }

  ghost predicate FileFits(p: Plan, stage: Stage, id: ID, f: File) {
    if id !in p.a.ids then f == BaseFile(p, id)
    else match stage
      case Was => f in Before(p, id)
      case Pending => f in Possible(p, id)
      case Done => f == NewFile(p, id)
      case Undone => f in Before(p, id)
  }

  lemma PickFits(p: Plan, s: State, stage: Stage, files: map<ID, File>)
    requires Inv(p, s) && stage in s.stages && Picks(s.kept, files)
    ensures Fits(p, stage, files)
  {
    hide BaseFile, NewFile, OldFile, Possible, Before;
    forall id | id in files ensures FileFits(p, stage, id, files[id]) {
      assert FileInv(p, s, id);
    }
  }

  lemma GroundIs(p: Plan)
    requires Planned(p)
    ensures var d := Ground(p);
      Sound(d) && Admissible(d, p.a) && SameView(p.base, d) && d.runs == p.base.runs && d.deleted == p.base.deleted
  {
    BasedKeeps(p.base, p.a, p.total);
  }

  // What a pending run's file can be.
  lemma PossibleIs(p: Plan, id: ID, f: File)
    requires Planned(p) && id in p.a.ids && f in Possible(p, id)
    ensures if New(p) then f.Full? ==> Untouched(f.run, p.a.total) else f.Full?
    ensures New(p) ==> id !in p.base.runs
    ensures !New(p) ==> id in p.base.runs && id in p.a.before && p.a.before.Keys == set x | x in p.a.ids
  {
    NewIsAbsent(p, id);
    hide Planned;
  }

  lemma PendingFile(p: Plan, files: map<ID, File>, id: ID)
    requires Planned(p) && Fits(p, Pending, files)
    ensures var e := Image(p, Pending, files);
      && Restored(Ground(p).(record := e.record), id) == Restored(e, id)
      && (id in p.a.ids && New(p) && id in e.runs && e.runs[id].Some? ==> Untouched(e.runs[id].value, p.a.total))
  {
    assert files.Keys == p.base.runs.Keys + set x | x in p.a.ids;
    if id in files { assert FileFits(p, Pending, id, files[id]); }
    if id in p.a.ids {
      PossibleIs(p, id, files[id]);
      hide Admissible, Sound, CommonTotal, Planned, Fits, Possible, Before, Untouched, NewFile, OldFile, BaseFile, Proposed;
    } else {
      hide Admissible, Sound, CommonTotal, Planned, Fits, Possible, Before, Untouched, NewFile, OldFile, Proposed;
    }
  }

  lemma PendingFiles(p: Plan, files: map<ID, File>)
    requires Planned(p) && Fits(p, Pending, files)
    ensures var e := Image(p, Pending, files);
      SameFiles(Ground(p).(record := e.record), e) && Recoverable(e) && e.deleted == p.base.deleted
  {
    var d, e := Ground(p), Image(p, Pending, files);
    assert !New(p) ==> p.a.before.Keys == set id | id in p.a.ids;
    hide Restored, Planned, Fits, Untouched;
    forall id
      ensures Restored(d.(record := e.record), id) == Restored(e, id)
      ensures id in p.a.ids && New(p) && id in e.runs && e.runs[id].Some? ==> Untouched(e.runs[id].value, p.a.total)
    {
      PendingFile(p, files, id);
    }
  }

  // The journal hides whatever the pending directories hold.
  lemma PendingShows(p: Plan, files: map<ID, File>)
    requires Planned(p) && Fits(p, Pending, files)
    ensures var e := Image(p, Pending, files); SameView(p.base, e) && SameView(Ground(p), e) && Sound(e)
  {
    var d, e := Ground(p), Image(p, Pending, files);
    var journaled := d.(record := e.record);
    GroundIs(p);
    JournalKeeps(d, p.a, p.filled);
    PendingFiles(p, files);
    assert journaled == d.(record := Some(Journal(d.record.value, p.a).(current := p.filled)));
    hide *;
    SameFilesSameView(journaled, e);
    SameTransitively(d, journaled, e);
    SameTransitively(p.base, d, e);
  }

  // Files of the final record also suit the journal, and hold every admitted run.
  lemma DoneIsWritten(p: Plan, files: map<ID, File>)
    requires Planned(p) && Fits(p, Done, files)
    ensures Fits(p, Pending, files)
    ensures forall id :: id in p.a.ids ==> id in files && id in p.a.runs && files[id] == Full(p.a.runs[id])
  {
    hide Planned, Before, BaseFile;
    forall id | id in files ensures FileFits(p, Pending, id, files[id]) { assert FileFits(p, Done, id, files[id]); }
    forall id | id in p.a.ids ensures id in files && id in p.a.runs && files[id] == Full(p.a.runs[id]) {
      assert id in files && FileFits(p, Done, id, files[id]);
      NewIsAbsent(p, id);
    }
  }

  lemma DoneIsPrepared(p: Plan, files: map<ID, File>)
    requires Planned(p) && Fits(p, Done, files)
    ensures Prepared(Ground(p), p.a, Image(p, Pending, files))
  {
    hide Planned, Fits, SameView, Sound, NewFile;
    GroundIs(p);
    DoneIsWritten(p, files);
    PendingShows(p, files);
  }

  lemma DoneShows(p: Plan, files: map<ID, File>)
    requires Planned(p) && Fits(p, Done, files)
    ensures var e := Image(p, Done, files); ShowsAdmitted(p.base, p.a, e) && Sound(e)
  {
    hide Planned, Fits, SameView, Sound, Prepared, ShowsAdmitted, Admissible, Based;
    var d, e, prepared := Ground(p), Image(p, Done, files), Image(p, Pending, files);
    GroundIs(p);
    DoneIsPrepared(p, files);
    assert e == prepared.(record := Some(Committed(prepared.record.value, p.a, p.current)));
    CommitKeeps(d, p.a, prepared, p.current);
    ShowsSame(d, p.base, p.a, e);
  }

  ghost predicate Reads(p: Plan, d: Disk, e: Disk, id: ID) {
    && Logical(d, id) == Logical(e, id) && WithinTotal(e, id)
    && (p.base.record.None? && Restored(e, id).Some? ==> Restored(e, id).value.total == p.total)
  }

  // What the group says of a run before the admission.
  lemma GroundReads(p: Plan, id: ID)
    requires Planned(p)
    ensures WithinTotal(Ground(p), id) && WithinTotal(p.base, id) && Logical(p.base, id) == Logical(Ground(p), id)
    ensures id in p.a.ids && !New(p) ==> id in p.a.before && Logical(Ground(p), id).Some? && p.a.before[id] == Logical(Ground(p), id).value.run
    ensures Ground(p).record.Some? && Ground(p).record.value.pending == []
    ensures p.base.record.None? && Restored(p.base, id).Some? ==> Restored(p.base, id).value.total == p.total
    ensures p.base.record.None? ==> Ground(p).record == Some(FirstRecord(p.total))
  {
    hide Logical, WithinTotal, Restored, Chained, Recoverable;
    GroundIs(p);
    assert id in p.a.ids && !New(p) ==> RewrittenRun(Ground(p), p.a, id) && Current(Ground(p), id);
  }

  // A file that reads as before, with its record.
  lemma OtherReads(p: Plan, stage: Stage, files: map<ID, File>, id: ID)
    requires Planned(p) && (stage.Was? || stage.Undone?) && Fits(p, stage, files) && id !in p.a.ids
    ensures Reads(p, if stage.Was? then p.base else Ground(p), Image(p, stage, files), id)
  {
    hide Planned, Before, NewFile, OldFile;
    GroundReads(p, id);
    if id in files { assert FileFits(p, stage, id, files[id]); }
  }

  lemma OwnReads(p: Plan, stage: Stage, files: map<ID, File>, id: ID)
    requires Planned(p) && (stage.Was? || stage.Undone?) && Fits(p, stage, files) && id in p.a.ids
    ensures Reads(p, if stage.Was? then p.base else Ground(p), Image(p, stage, files), id)
  {
    hide Planned;
    GroundReads(p, id);
    NewIsAbsent(p, id);
    assert id in files && FileFits(p, stage, id, files[id]);
  }

  lemma QuietShows(p: Plan, stage: Stage, files: map<ID, File>)
    requires Planned(p) && (stage.Was? || stage.Undone?) && Fits(p, stage, files)
    ensures var e := Image(p, stage, files); SameView(p.base, e) && Sound(e)
  {
    var d, e := if stage.Was? then p.base else Ground(p), Image(p, stage, files);
    GroundIs(p);
    assert Recoverable(e);
    hide Restored, Logical, WithinTotal, Planned, Fits, Admissible, Image, Chained, Recoverable;
    forall id ensures Reads(p, d, e, id) { if id in p.a.ids { OwnReads(p, stage, files, id); } else { OtherReads(p, stage, files, id); } }
    forall id
      ensures Logical(d, id) == Logical(e, id) && WithinTotal(e, id)
      ensures p.base.record.None? && Restored(e, id).Some? ==> Restored(e, id).value.total == p.total
    {
      assert Reads(p, d, e, id);
    }
    SameViewIsChained(d, e);
    SameReflexively(p.base);
    SameTransitively(p.base, d, e);
  }

  /** Whatever a power cut keeps, the group shows all of the admission or nothing of it, and
      all of it only under the final record. */
  lemma PowerCutIsAtomic(p: Plan, run: seq<State>, i: nat, stage: Stage, files: map<ID, File>)
    requires Planned(p) && Steps(p, run) && i < |run| && stage in run[i].stages && Picks(run[i].kept, files)
    ensures var e := Image(p, stage, files);
      Sound(e) && if stage.Done? then ShowsAdmitted(p.base, p.a, e) else SameView(p.base, e)
  {
    RunKeepsInv(p, run, i);
    PickFits(p, run[i], stage, files);
    hide *;
    match stage
    case Pending => PendingShows(p, files);
    case Done => DoneShows(p, files);
    case _ => QuietShows(p, stage, files);
  }

  /** Once the final record is synced, no crash, restart or power cut takes the admission back. */
  lemma {:induction false} DoneIsForever(p: Plan, run: seq<State>, i: nat, j: nat)
    requires Steps(p, run) && i <= j < |run| && run[i].stage.Done? && run[i].stages == {Done}
    ensures run[j].stage.Done? && run[j].stages == {Done}
  {
    if i < j {
      DoneIsForever(p, run, i, j - 1);
      assert Step(p, run[j - 1], run[j]);
      hide Wrote, Only;
    }
  }

  // -------------------------------------------------------------- recovery

  // Recovery alone leads from one state to the other.
  ghost predicate Recovery(p: Plan, s: State, t: State, n: nat)
    decreases n
  {
    if n == 0 then s == t else exists m :: Recovers(p, s, m) && Recovery(p, m, t, n - 1)
  }

  lemma NothingRecovered(p: Plan, s: State)
    ensures Recovery(p, s, s, 0)
  {
  }

  lemma {:induction false} RecoveryGoesOn(p: Plan, s: State, m: State, t: State, n: nat)
    requires Recovery(p, s, m, n) && Recovers(p, m, t)
    ensures Recovery(p, s, t, n + 1)
    decreases n
  {
    hide Recovers;
    if n == 0 {
      assert Recovery(p, t, t, 0);
    } else {
      var k :| Recovers(p, s, k) && Recovery(p, k, m, n - 1);
      RecoveryGoesOn(p, k, m, t, n - 1);
    }
  }

  lemma RecoversKeeps(p: Plan, s: State, t: State)
    requires Planned(p) && Inv(p, s) && Recovers(p, s, t)
    ensures Inv(p, t)
  {
    hide Inv, Planned, Recovers;
    StepKeepsInv(p, s, t);
  }

  ghost predicate Blocked(p: Plan, s: State) { exists id :: id in p.a.ids && id in s.now && s.now[id].Torn? }

  lemma BlockedStays(p: Plan, s: State, t: State)
    requires Planned(p) && Inv(p, s) && s.stage.Pending? && Blocked(p, s) && Recovers(p, s, t)
    ensures t.stage.Pending? && Blocked(p, t)
  {
    hide Planned, Inv, New, OldFile;
    var id :| id in p.a.ids && id in s.now && s.now[id].Torn?;
    OldIsReadable(p, s, id);
    if y :| Undo(p, s, t, y) {
      assert id in t.now && t.now[id].Torn?;
    } else if t == Flushed(s) || t == s.(stages := {s.stage}) {
      assert t.now == s.now;
    } else {
      assert false;
    }
  }

  // Only a new run can be torn, and no undoing leaves it so.
  lemma OldIsReadable(p: Plan, s: State, id: ID)
    requires Planned(p) && Inv(p, s) && id in p.a.ids && id in s.now && s.now[id].Torn?
    ensures New(p) && !OldFile(p, id).Torn?
  {
    hide Planned, Stages;
    NewIsAbsent(p, id);
    assert FileInv(p, s, id);
  }

  lemma {:induction false} BlockedForever(p: Plan, s: State, t: State, n: nat)
    requires Planned(p) && Inv(p, s) && s.stage.Pending? && Blocked(p, s) && Recovery(p, s, t, n)
    ensures t.stage.Pending? && Blocked(p, t)
    decreases n
  {
    hide Recovers, Inv, Planned, Blocked;
    if n > 0 {
      var m :| Recovers(p, s, m) && Recovery(p, m, t, n - 1);
      BlockedStays(p, s, m);
      RecoversKeeps(p, s, m);
      BlockedForever(p, m, t, n - 1);
    }
  }

  // What a run's file is, and what its undoing is to leave.
  lemma UndoneFile(p: Plan, s: State, id: ID)
    requires Planned(p) && Inv(p, s) && !Blocked(p, s) && id in p.a.ids
    ensures id in s.now && id in s.kept && !s.now[id].Torn? && (New(p) ==> OldFile(p, id).Absent?) && !OldFile(p, id).Torn?
  {
    NewIsAbsent(p, id);
  }

  // One run undone, by up to two operations.
  lemma UndoOne(p: Plan, s: State, id: ID, m: State, n: nat) returns (t: State, k: nat)
    requires Planned(p) && Inv(p, m) && m.stage.Pending? && !Blocked(p, m) && id in p.a.ids && Recovery(p, s, m, n)
    ensures Inv(p, t) && t.stage.Pending? && !Blocked(p, t) && Recovery(p, s, t, k)
    ensures t.now == m.now[id := OldFile(p, id)]
  {
    hide *;
    UndoneFile(p, m, id);
    t, k := m, n;
    if !New(p) {
      t, k := OneUndo(p, s, id, t, k, OldFile(p, id));
    } else {
      if t.now[id].Full? { t, k := OneUndo(p, s, id, t, k, Bare); }
      if t.now[id].Bare? { t, k := OneUndo(p, s, id, t, k, Absent); }
    }
  }

  lemma OneUndo(p: Plan, s: State, id: ID, m: State, n: nat, f: File) returns (t: State, k: nat)
    requires Planned(p) && Inv(p, m) && m.stage.Pending? && !Blocked(p, m) && id in p.a.ids && id in m.now && id in m.kept
    requires Recovery(p, s, m, n) && !f.Torn?
    requires if New(p) then (m.now[id].Full? && f == Bare) || (m.now[id].Bare? && f == Absent) else f == OldFile(p, id)
    ensures t.now == m.now[id := f] && t.kept.Keys == m.kept.Keys && t.stage.Pending? && Inv(p, t) && !Blocked(p, t) && Recovery(p, s, t, k)
  {
    t, k := Wrote(m, id, f, false), n + 1;
    hide Planned, Inv, Recovery, Recovers, Blocked, Undo, New, OldFile;
    ByUndo(p, m, id, f);
    RecoversKeeps(p, m, t);
    RecoveryGoesOn(p, s, m, t, n);
  }

  lemma ByUndo(p: Plan, s: State, id: ID, f: File)
    requires s.stage.Pending? && !Blocked(p, s) && id in p.a.ids && id in s.now && id in s.kept && !f.Torn?
    requires if New(p) then (s.now[id].Full? && f == Bare) || (s.now[id].Bare? && f == Absent) else f == OldFile(p, id)
    ensures Recovers(p, s, Wrote(s, id, f, false)) && !Blocked(p, Wrote(s, id, f, false))
  {
    hide OldFile, New, Flushed;
    assert Undo(p, s, Wrote(s, id, f, false), id);
  }

  lemma {:induction false} UndoAll(p: Plan, s: State, i: nat) returns (t: State, k: nat)
    requires Planned(p) && Inv(p, s) && s.stage.Pending? && !Blocked(p, s) && i <= |p.a.ids|
    ensures Inv(p, t) && t.stage.Pending? && !Blocked(p, t) && Recovery(p, s, t, k)
    ensures forall j :: 0 <= j < i ==> p.a.ids[j] in t.now && t.now[p.a.ids[j]] == OldFile(p, p.a.ids[j])
  {
    hide *;
    if i == 0 {
      t, k := s, 0;
      NothingRecovered(p, s);
    } else {
      t, k := UndoAll(p, s, i - 1);
      t, k := UndoOne(p, s, p.a.ids[i - 1], t, k);
    }
  }

  // The run files are synced, the record is cleared, and it is synced.
  lemma Closing(p: Plan, m: State) returns (t: State)
    requires m.stage.Pending? && m.now.Keys == m.kept.Keys
    requires forall j :: 0 <= j < |p.a.ids| ==> p.a.ids[j] in m.now && m.now[p.a.ids[j]] == OldFile(p, p.a.ids[j])
    ensures var flushed := Flushed(m);
      var cleared := WroteRecord(flushed, Undone);
      Recovers(p, m, flushed) && Recovers(p, flushed, cleared) && Recovers(p, cleared, t) && t == cleared.(stages := {Undone})
  {
    hide OldFile, Undo;
    var flushed := Flushed(m);
    t := WroteRecord(flushed, Undone).(stages := {Undone});
    forall id | id in p.a.ids ensures Only(flushed, id, OldFile(p, id)) {
      var j :| 0 <= j < |p.a.ids| && p.a.ids[j] == id;
    }
  }

  lemma FinishRecovery(p: Plan, s: State) returns (t: State, k: nat)
    requires Planned(p) && Inv(p, s) && s.stage.Pending? && !Blocked(p, s)
    ensures Recovery(p, s, t, k) && t.stage.Undone? && t.stages == {Undone}
  {
    var m;
    m, k := UndoAll(p, s, |p.a.ids|);
    t := Closing(p, m);
    var flushed := Flushed(m);
    var cleared := WroteRecord(flushed, Undone);
    hide *;
    RecoveryGoesOn(p, s, m, flushed, k);
    RecoveryGoesOn(p, s, flushed, cleared, k + 1);
    RecoveryGoesOn(p, s, cleared, t, k + 2);
    k := k + 3;
  }

  /** Recovery can finish exactly if it can read the metadata of every directory it must remove. */
  lemma RecoveryFinishesExactly(p: Plan, run: seq<State>, i: nat)
    requires Planned(p) && Steps(p, run) && i < |run| && run[i].stage.Pending?
    ensures (exists t, n: nat :: Recovery(p, run[i], t, n) && t.stage.Undone? && t.stages == {Undone}) <==> !Blocked(p, run[i])
  {
    RunKeepsInv(p, run, i);
    hide *;
    if !Blocked(p, run[i]) {
      var t, k := FinishRecovery(p, run[i]);
    } else if t, n: nat :| Recovery(p, run[i], t, n) && t.stage.Undone? && t.stages == {Undone} {
      BlockedForever(p, run[i], t, n);
    }
  }

  // The file of a new run is written, and a power cut keeps its name without its bytes.
  lemma TornCut(p: Plan, s1: State, s2: State, s3: State, id: ID)
    requires New(p) && id in p.a.ids && s1.stage.Pending? && s2 == s1.(stages := {Pending})
    requires s2.now.Keys == s2.kept.Keys && id in s2.now && (forall x :: x in s2.now ==> s2.now[x] in s2.kept[x])
    requires s3 == Wrote(s2, id, NewFile(p, id), true)
    ensures var s4 := Flushed(State(Pending, {Pending}, s3.now[id := Torn], s3.kept));
      Step(p, s1, s2) && Step(p, s2, s3) && Step(p, s3, s4) && s4.stage.Pending? && Blocked(p, s4)
  {
    hide NewFile, Undo, Only, Planned;
    var s4 := Flushed(State(Pending, {Pending}, s3.now[id := Torn], s3.kept));
    assert Recovers(p, s1, s2);
    assert Put(p, s2, s3, id);
    assert PowerCut(s3, s4);
    assert s4.now[id].Torn?;
  }

  lemma SomeRun(p: Plan)
    requires Planned(p)
    ensures p.a.ids != []
  {
  }

  /** The metadata of a new run is renamed into place before its bytes are synced, so for every
      admission of new runs there is a power cut after which recovery never finishes. */
  lemma RecoveryMayBlock(p: Plan) returns (run: seq<State>)
    requires Planned(p) && New(p)
    ensures Steps(p, run) && run[|run| - 1].stage.Pending? && Blocked(p, run[|run| - 1])
  {
    hide Planned, Ground, RecordAt, Recovers, Before, BaseFile, Blocked;
    SomeRun(p);
    var id := p.a.ids[0];
    var s0 := Start(p);
    var s1 := WroteRecord(s0, Pending);
    var s2 := s1.(stages := {Pending});
    var s3 := Wrote(s2, id, NewFile(p, id), true);
    TornCut(p, s1, s2, s3, id);
    var s4 := Flushed(State(Pending, {Pending}, s3.now[id := Torn], s3.kept));
    assert Step(p, s0, s1);
    run := [s0, s1, s2, s3, s4];
    hide *;
  }

  // ------------------------------------------------------------ the program

  lemma RunGoesOn(p: Plan, run: seq<State>, t: State)
    requires Steps(p, run) && Step(p, run[|run| - 1], t)
    ensures Steps(p, run + [t])
  {
    hide Step;
    var more := run + [t];
    forall i | 0 < i < |more| ensures Step(p, more[i - 1], more[i]) {
      if i < |run| { assert more[i] == run[i]; }
    }
  }

  lemma FilesAreThere(p: Plan, run: seq<State>, s: State)
    requires Planned(p) && Steps(p, run) && run[|run| - 1] == s
    ensures forall id :: id in p.a.ids ==> id in s.now && id in s.kept && id in p.a.runs
  {
    RunKeepsInv(p, run, |run| - 1);
    forall id | id in p.a.ids ensures id in p.a.runs { NewIsAbsent(p, id); }
  }

  // What the file operations of one kind can do next.
  lemma SyncSteps(p: Plan, s: State)
    ensures Step(p, s, Flushed(s)) && Step(p, s, s.(stages := {s.stage}))
    ensures s.stage.Was? ==> Step(p, s, WroteRecord(s, Pending))
  {
    hide Put, Undo, Flushed, WroteRecord;
  }

  lemma PutSteps(p: Plan, s: State, id: ID)
    requires s.stage.Pending? && s.stages == {Pending} && id in p.a.ids && id in s.kept
    ensures Step(p, s, Wrote(s, id, NewFile(p, id), New(p))) && (New(p) ==> Step(p, s, Wrote(s, id, Bare, false)))
  {
    assert Put(p, s, Wrote(s, id, NewFile(p, id), New(p)), id);
    assert New(p) ==> Put(p, s, Wrote(s, id, Bare, false), id);
    hide Put, Recovers;
  }

  lemma UndoSteps(p: Plan, s: State, id: ID)
    requires s.stage.Pending? && id in p.a.ids && id in s.now && id in s.kept
    ensures New(p) && s.now[id].Full? ==> Step(p, s, Wrote(s, id, Bare, false))
    ensures New(p) && s.now[id].Bare? ==> Step(p, s, Wrote(s, id, Absent, false))
    ensures !New(p) ==> Step(p, s, Wrote(s, id, OldFile(p, id), false))
  {
    assert New(p) && s.now[id].Full? ==> Undo(p, s, Wrote(s, id, Bare, false), id);
    assert New(p) && s.now[id].Bare? ==> Undo(p, s, Wrote(s, id, Absent, false), id);
    assert !New(p) ==> Undo(p, s, Wrote(s, id, OldFile(p, id), false), id);
    hide Undo, Put;
  }

  ghost predicate Holds(s: State, ids: seq<ID>, k: nat, f: ID -> File) {
    k <= |ids| && forall j :: 0 <= j < k ==> ids[j] in s.now && s.now[ids[j]] == f(ids[j])
  }

  // One more file holds what it is to hold.
  lemma HoldsOneMore(s: State, t: State, ids: seq<ID>, k: nat, f: ID -> File)
    requires k < |ids| && Holds(s, ids, k, f) && ids[k] in s.now && t.now == s.now[ids[k] := f(ids[k])]
    ensures Holds(t, ids, k + 1, f)
  {
  }

  lemma FinalSteps(p: Plan, s: State, done: bool)
    requires s.stage.Pending? && s.kept == Flushed(s).kept && (done ==> s.stages == {Pending})
    requires Holds(s, p.a.ids, |p.a.ids|, (id: ID) => if done then NewFile(p, id) else OldFile(p, id))
    ensures Step(p, s, WroteRecord(s, if done then Done else Undone))
  {
    hide Put, Undo, WroteRecord, NewFile, OldFile;
    forall id | id in p.a.ids ensures Only(s, id, if done then NewFile(p, id) else OldFile(p, id)) {
      var j :| 0 <= j < |p.a.ids| && p.a.ids[j] == id;
    }
  }

  class Store {
    var state: State
    // Every state so far of the group that the plan is for.
    ghost var run: seq<State>
    // Failed file operations.
    ghost var faults: nat

    ghost predicate Valid(p: Plan)
      reads this
    {
      Planned(p) && Steps(p, run) && run[|run| - 1] == state
    }

    // A process starts with whatever the last one, or a power cut, left.
    constructor (p: Plan, ghost past: seq<State>, s: State)
      requires Planned(p) && Steps(p, past) && past[|past| - 1] == s
      ensures Valid(p) && run == past && state == s
    {
      state, run, faults := s, past, 0;
    }

    method Take(p: Plan, t: State)
      requires Valid(p) && Step(p, state, t)
      modifies this`state, this`run
      ensures Valid(p) && run == old(run) + [t] && state == t
    {
      RunGoesOn(p, run, t);
      hide *;
      state, run := t, run + [t];
    }

    // One record or one directory is synced.
    method SyncRecord(p: Plan) returns (ok: bool)
      requires Valid(p)
      modifies this
      ensures Valid(p) && old(run) <= run && state.stage == old(state).stage && state.now == old(state).now && state.kept == old(state).kept
      ensures state.stages == if ok then {state.stage} else old(state).stages
      ensures faults >= old(faults) && (!ok ==> faults > old(faults))
    {
      hide Planned, Steps, Step;
      ok := *;
      SyncSteps(p, state);
      if ok { Take(p, state.(stages := {state.stage})); } else { faults := faults + 1; }
    }

    method SyncFiles(p: Plan) returns (ok: bool)
      requires Valid(p)
      modifies this
      ensures Valid(p) && old(run) <= run && state == old(state).(kept := state.kept) && (ok ==> state.kept == Flushed(state).kept)
      ensures faults >= old(faults) && (!ok ==> faults > old(faults))
    {
      hide Planned, Steps;
      ok := *;
      SyncSteps(p, state);
      if ok { Take(p, Flushed(state)); } else { faults := faults + 1; }
    }

    // Make and fill, or replace, one run's file.
    method Write(p: Plan, id: ID) returns (ok: bool)
      requires Valid(p) && state.stage.Pending? && state.stages == {Pending} && id in p.a.ids
      modifies this
      ensures Valid(p) && old(run) <= run && state == old(state).(now := state.now, kept := state.kept)
      ensures ok ==> id in old(state).now && state.now == old(state).now[id := NewFile(p, id)]
      ensures faults >= old(faults) && (!ok ==> faults > old(faults))
    {
      hide Planned, Steps, New, NewFile, Step;
      FilesAreThere(p, run, state);
      var made, filled: bool := *, *;
      PutSteps(p, state, id);
      if !made { faults := faults + 1; return false; }
      if New(p) { Take(p, Wrote(state, id, Bare, false)); }
      if !filled { faults := faults + 1; return false; }
      PutSteps(p, state, id);
      Take(p, Wrote(state, id, NewFile(p, id), New(p)));
      ok := true;
    }

    // Empty and remove, or restore, one run's directory; refuse it if its metadata is unreadable.
    method UndoRun(p: Plan, id: ID) returns (ok: bool)
      requires Valid(p) && state.stage.Pending? && id in p.a.ids
      modifies this
      ensures Valid(p) && old(run) <= run && state == old(state).(now := state.now, kept := state.kept)
      ensures ok ==> id in old(state).now && state.now == old(state).now[id := OldFile(p, id)]
      ensures faults >= old(faults) && (!ok ==> faults > old(faults) || (New(p) && id in state.now && state.now[id].Torn?))
    {
      hide Planned, Steps, New, OldFile, Step, BaseFile, Untouched;
      FilesAreThere(p, run, state);
      NewIsAbsent(p, id);
      var first, second: bool := *, *;
      UndoSteps(p, state, id);
      if !New(p) {
        if first { Take(p, Wrote(state, id, OldFile(p, id), false)); } else { faults := faults + 1; }
        return first;
      }
      if state.now[id].Torn? { return false; }
      if state.now[id].Full? {
        if !first { faults := faults + 1; return false; }
        Take(p, Wrote(state, id, Bare, false));
        UndoSteps(p, state, id);
      }
      if state.now[id].Bare? {
        if !second { faults := faults + 1; return false; }
        Take(p, Wrote(state, id, Absent, false));
      }
      ok := true;
    }

    /** Undo what is journaled, sync it, and only then clear the journal. */
    method Rollback(p: Plan) returns (ok: bool)
      requires Valid(p)
      modifies this
      ensures Valid(p) && old(run) <= run
      ensures ok ==> state.stage == if old(state).stage.Pending? then Undone else old(state).stage
      ensures ok && old(state).stage.Pending? ==> state.stages == {Undone}
      ensures faults >= old(faults) && (!ok ==> faults > old(faults) || Blocked(p, state))
    {
      hide Planned, Steps, Step, OldFile, Flushed, WroteRecord;
      if !state.stage.Pending? { return true; }
      var f: ID -> File := (id: ID) => OldFile(p, id);
      for i := 0 to |p.a.ids|
        invariant Valid(p) && old(run) <= run && state.stage.Pending? && Holds(state, p.a.ids, i, f) && faults >= old(faults)
      {
        ghost var before := state;
        ok := UndoRun(p, p.a.ids[i]);
        if !ok { return; }
        HoldsOneMore(before, state, p.a.ids, i, f);
      }
      ok := SyncFiles(p);
      if !ok { return; }
      var written: bool := *;
      if !written { faults := faults + 1; return false; }
      Final(p, false);
      ok := SyncRecord(p);
    }

    // The final record, or the journal cleared.
    method Final(p: Plan, done: bool)
      requires Valid(p) && state.stage.Pending? && state.kept == Flushed(state).kept && (done ==> state.stages == {Pending})
      requires Holds(state, p.a.ids, |p.a.ids|, (id: ID) => if done then NewFile(p, id) else OldFile(p, id))
      modifies this`state, this`run
      ensures Valid(p) && old(run) <= run && state.stage == (if done then Done else Undone)
    {
      hide Planned, Steps, Step, Flushed, Holds;
      FinalSteps(p, state, done);
      Take(p, WroteRecord(state, if done then Done else Undone));
    }

    /** The journal, the run files and the final record, each synced before the next. */
    method Commit(p: Plan) returns (ok: bool)
      requires Valid(p) && state == Start(p)
      modifies this
      ensures Valid(p) && old(run) <= run
      ensures ok ==> state.stage.Done? && state.stages == {Done}
      ensures faults >= old(faults) && (!ok ==> faults > old(faults))
    {
      hide Planned, Steps, Step, NewFile, Flushed;
      var written, synced: bool := *, *;
      if !written { faults := faults + 1; return false; }
      SyncSteps(p, state);
      Take(p, WroteRecord(state, Pending));
      ok := SyncRecord(p);
      if !ok { return; }
      var f: ID -> File := (id: ID) => NewFile(p, id);
      var i := 0;
      while ok && i < |p.a.ids|
        invariant i <= |p.a.ids| && Valid(p) && old(run) <= run && state.stage.Pending? && state.stages == {Pending}
        invariant ok ==> Holds(state, p.a.ids, i, f)
        invariant faults >= old(faults) && (!ok ==> faults > old(faults))
      {
        ghost var before := state;
        ok := Write(p, p.a.ids[i]);
        if ok { HoldsOneMore(before, state, p.a.ids, i, f); }
        i := i + 1;
      }
      if ok { ok := SyncFiles(p); }
      if ok && !synced { ok, faults := false, faults + 1; }
      if !ok {
        var undone := Rollback(p);
        return;
      }
      Final(p, true);
      ok := SyncRecord(p);
    }
  }
}
