/** Archiving and power cuts. Copied objects and the remote manifest become durable by one sync
    of the remote directory, after both were renamed into place, and a later attempt trusts the
    manifest it finds there. Manifests and sets of files are sets of segment names here.
 */
module ArchiveCuts {
  import opened Model

  datatype Phase = Idle | Copying | Published | Synced | Listed | Clearing

  /** `plan` is the manifest an attempt builds. A power cut keeps any of the `files` that were
      there at the last sync, at least the `settled` objects, and any of the manifests kept. */
  datatype State = State(
    phase: Phase, plan: set<ID>, all: set<ID>, files: set<ID>, known: set<ID>, objects: set<ID>, settled: set<ID>,
    remote: set<ID>, remotes: set<set<ID>>, local: set<ID>, locals: set<set<ID>>)

  // What a power cut leaves of a run.
  datatype Image = Image(files: set<ID>, objects: set<ID>, remote: set<ID>, local: set<ID>)

  /** Every segment of the log can be read: where the local manifest says it is. */
  ghost predicate Intact(all: set<ID>, i: Image) { forall n :: n in all ==> if n in i.local then n in i.objects else n in i.files }

  function Now(s: State): Image { Image(s.files, s.objects, s.remote, s.local) }

  ghost predicate Survives(s: State, i: Image) {
    s.files <= i.files <= s.known && s.settled <= i.objects <= s.objects && i.remote in s.remotes && i.local in s.locals
  }

  // The state in which a new process finds an image.
  function Rebooted(s: State, i: Image): State {
    State(Idle, {}, s.all, i.files, i.files, i.objects, i.objects, i.remote, {i.remote}, i.local, {i.local})
  }

  datatype Op = Seal(segment: ID) | Begin | Copy(segment: ID) | PublishRemote | SyncRemote | PublishLocal | SyncLocal | Unlink(segment: ID) | Crash

  ghost predicate Enabled(s: State, op: Op) {
    match op
    case Seal(n) => s.phase.Idle? && n !in s.all && n !in s.local && n !in s.remote && n !in s.objects && forall l :: l in s.locals ==> n !in l
    case Begin => s.phase.Idle?
    case Copy(n) => s.phase.Copying? && n in s.files && n !in s.plan
    case PublishRemote => s.phase.Copying? && s.files <= s.plan
    case SyncRemote => s.phase.Published?
    case PublishLocal => s.phase.Synced?
    case SyncLocal => s.phase.Listed?
    case Unlink(n) => s.phase.Clearing? && n in s.plan
    case Crash => true
  }

  function Apply(s: State, op: Op): State {
    match op
    case Seal(n) => s.(all := s.all + {n}, files := s.files + {n}, known := s.known + {n})
    // What the remote manifest names is taken over without a look at the objects.
    case Begin => s.(phase := Copying, plan := s.local + s.remote)
    case Copy(n) => s.(objects := s.objects + {n}, plan := s.plan + {n})
    case PublishRemote => s.(phase := Published, remote := s.plan, remotes := s.remotes + {s.plan})
    case SyncRemote => s.(phase := Synced, settled := s.objects, remotes := {s.remote})
    case PublishLocal => s.(phase := Listed, local := s.plan, locals := s.locals + {s.plan})
    case SyncLocal => s.(phase := Clearing, known := s.files, locals := {s.local})
    case Unlink(n) => s.(files := s.files - {n})
    case Crash => s.(phase := Idle, plan := {})
  }

  // The manifest that survived names only objects that survived.
  ghost predicate Covered(i: Image) { i.remote <= i.objects }

  ghost predicate Step(s: State, t: State) {
    || (exists op :: Enabled(s, op) && t == Apply(s, op))
    || (exists i :: Survives(s, i) && Covered(i) && t == Rebooted(s, i))
  }

  ghost predicate Inv(s: State) {
    && s.files <= s.known && s.settled <= s.objects && s.remote in s.remotes && s.local in s.locals
    && s.remote <= s.objects <= s.all && s.local <= s.settled && (forall r :: r in s.remotes ==> r <= s.all) && s.known <= s.all
    && (forall l :: l in s.locals ==> l <= s.settled)
    && (forall n, l :: n in s.all && l in s.locals && n !in l ==> n in s.files)
    && (!s.phase.Idle? ==> s.plan <= s.objects && s.local <= s.plan)
    && (!s.phase.Idle? && !s.phase.Copying? ==> s.plan == s.remote && s.files <= s.plan)
    && (s.phase.Synced? || s.phase.Listed? || s.phase.Clearing? ==> s.plan <= s.settled)
    && (s.phase.Clearing? ==> s.locals == {s.plan})
    && (s.phase.Listed? ==> s.local == s.plan)
  }

  lemma OpKeepsInv(s: State, op: Op)
    requires Inv(s) && Enabled(s, op)
    ensures Inv(Apply(s, op))
  {
  }

  lemma StepKeepsInv(s: State, t: State)
    requires Inv(s) && Step(s, t)
    ensures Inv(t)
  {
    if op :| Enabled(s, op) && t == Apply(s, op) {
      OpKeepsInv(s, op);
    }
  }

  ghost predicate Run(run: seq<State>) { run != [] && forall i :: 0 < i < |run| ==> Step(run[i - 1], run[i]) }

  lemma {:induction false} RunKeepsInv(run: seq<State>, i: nat)
    requires Run(run) && Inv(run[0]) && i < |run|
    ensures Inv(run[i])
  {
    if i > 0 {
      RunKeepsInv(run, i - 1);
      StepKeepsInv(run[i - 1], run[i]);
    }
  }

  lemma InvIsIntact(s: State)
    requires Inv(s)
    ensures Intact(s.all, Now(s))
  {
  }

  /** As long as no power cut leaves a remote manifest without its objects, every mixture that
      the next one can leave, that kind included, still has every segment of the log. */
  lemma EveryCutIsIntact(run: seq<State>, k: nat, i: Image)
    requires Run(run) && Inv(run[0]) && k < |run| && Survives(run[k], i)
    ensures Intact(run[k].all, i) && Intact(run[k].all, Now(run[k]))
  {
    RunKeepsInv(run, k);
  }

  // ----------------------------------------------- the next attempt

  // A process that is not interrupted by another power cut.
  ghost predicate Runs(s: State, ops: seq<Op>)
    decreases ops
  {
    ops == [] || (Enabled(s, ops[0]) && Runs(Apply(s, ops[0]), ops[1..]))
  }

  function Final(s: State, ops: seq<Op>): State
    decreases ops
  {
    if ops == [] then s else Final(Apply(s, ops[0]), ops[1..])
  }

  lemma {:induction false} RunsKeepInv(s: State, ops: seq<Op>)
    requires Inv(s) && Runs(s, ops)
    ensures Inv(Final(s, ops))
    decreases ops
  {
    if ops != [] {
      OpKeepsInv(s, ops[0]);
      RunsKeepInv(Apply(s, ops[0]), ops[1..]);
    }
  }

  // A segment without a copy anywhere.
  ghost predicate Gone(s: State, n: ID) { n in s.all && n !in s.files && n !in s.objects }

  lemma OneMore(s: State, op: Op, ops: seq<Op>)
    ensures Final(s, [op] + ops) == Final(Apply(s, op), ops)
    ensures Runs(s, [op] + ops) <==> Enabled(s, op) && Runs(Apply(s, op), ops)
    ensures Runs(s, []) && Final(s, []) == s && [op] + [] == [op]
  {
    assert ([op] + ops)[1..] == ops;
  }

  // All that is left of an attempt that has copied everything.
  lemma Finishes(s: State, n: ID) returns (ops: seq<Op>)
    requires s.phase.Copying? && s.files <= s.plan && n in s.plan && n in s.all && n !in s.objects
    ensures Runs(s, ops) && Gone(Final(s, ops), n)
  {
    var s1 := Apply(s, PublishRemote);
    var s2 := Apply(s1, SyncRemote);
    var s3 := Apply(s2, PublishLocal);
    var s4 := Apply(s3, SyncLocal);
    var s5 := Apply(s4, Unlink(n));
    OneMore(s4, Unlink(n), []);
    OneMore(s3, SyncLocal, [Unlink(n)]);
    OneMore(s2, PublishLocal, [SyncLocal, Unlink(n)]);
    OneMore(s1, SyncRemote, [PublishLocal, SyncLocal, Unlink(n)]);
    ops := [SyncRemote, PublishLocal, SyncLocal, Unlink(n)];
    OneMore(s, PublishRemote, ops);
    ops := [PublishRemote] + ops;
    assert Gone(s5, n);
  }

  lemma {:induction false} CopiesAndFinishes(s: State, n: ID) returns (ops: seq<Op>)
    requires s.phase.Copying? && n in s.plan && n in s.all && n !in s.objects
    ensures Runs(s, ops) && Gone(Final(s, ops), n)
    decreases s.files - s.plan
  {
    if s.files <= s.plan {
      ops := Finishes(s, n);
    } else {
      var m :| m in s.files && m !in s.plan;
      assert Apply(s, Copy(m)).files - Apply(s, Copy(m)).plan < s.files - s.plan by { assert m in s.files - s.plan; }
      var rest := CopiesAndFinishes(Apply(s, Copy(m)), n);
      ops := [Copy(m)] + rest;
      assert ops[1..] == rest;
    }
  }

  // However the attempts go on, every segment can be read.
  ghost predicate Lasting(s: State) { forall ops :: Runs(s, ops) ==> Intact(Final(s, ops).all, Now(Final(s, ops))) }

  /** Exactly which power cuts the next attempts survive: those that leave every object the
      remote manifest names. After any other one an attempt can unlink the last copy. */
  lemma RetryIsSafeExactly(s: State, i: Image)
    requires Inv(s) && Survives(s, i)
    ensures Lasting(Rebooted(s, i)) <==> Covered(i)
    ensures !Covered(i) ==> exists ops, n :: Runs(Rebooted(s, i), ops) && Gone(Final(Rebooted(s, i), ops), n)
  {
    var r := Rebooted(s, i);
    if Covered(i) {
      forall ops | Runs(r, ops) ensures Intact(Final(r, ops).all, Now(Final(r, ops))) {
        StepKeepsInv(s, r);
        RunsKeepInv(r, ops);
        InvIsIntact(Final(r, ops));
      }
    } else {
      var n :| n in i.remote && n !in i.objects;
      var rest := CopiesAndFinishes(Apply(r, Begin), n);
      var ops := [Begin] + rest;
      assert ops[1..] == rest && Runs(r, ops);
      assert Gone(Final(r, ops), n) && !Intact(Final(r, ops).all, Now(Final(r, ops)));
    }
  }

  const EMPTY := State(Idle, {}, {}, {}, {}, {}, {}, {}, {{}}, {}, {{}})

  /** Such a cut is possible: the first attempt renames one object and the manifest, and the
      sync of their directory never ends. */
  lemma UncoveredHappens() returns (s: State, i: Image)
    ensures Inv(EMPTY) && Runs(EMPTY, [Seal(1), Begin, Copy(1), PublishRemote]) && s == Final(EMPTY, [Seal(1), Begin, Copy(1), PublishRemote])
    ensures Survives(s, i) && Intact(s.all, i) && !Covered(i)
  {
    var s1 := Apply(EMPTY, Seal(1));
    var s2 := Apply(s1, Begin);
    var s3 := Apply(s2, Copy(1));
    s, i := Apply(s3, PublishRemote), Image({1}, {}, {1}, {});
    OneMore(s3, PublishRemote, []);
    OneMore(s2, Copy(1), [PublishRemote]);
    OneMore(s1, Begin, [Copy(1), PublishRemote]);
    OneMore(EMPTY, Seal(1), [Begin, Copy(1), PublishRemote]);
    assert [Seal(1)] + [Begin, Copy(1), PublishRemote] == [Seal(1), Begin, Copy(1), PublishRemote];
    assert s.plan == {1} && s.all == {1} && s.remotes == {{}, {1}} && s.locals == {{}};
    assert 1 in i.files && 1 !in i.local && 1 in i.remote && 1 !in i.objects;
    forall n | n in s.all ensures n in i.files && n !in i.local { }
  }
}
