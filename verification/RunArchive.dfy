/** Moving one result log of a run to network storage.

    Locally a log is a list of sealed segments, whose names are creation times, and one
    growing tail. An archive worker seals the tail, copies segments to the archive,
    publishes the archive's manifest, then the local manifest, and only then unlinks local
    segments. It may stop between any two file operations, and appends go on meanwhile.
 */
module RunArchive {
  import opened Model

  newtype byte = x: int | 0 <= x < 256
  type Bytes = seq<byte>

  // The first object of a log keeps the log's own name, later ones the segment's.
  datatype Object = Logical | Sealed(segment: nat)

  // Digests are injective: a digest is the content it was computed from.
  datatype Part = Part(name: Object, size: nat, digest: Bytes, segment: nat)

  // The archive's directory of the run, before and after its first publication.
  datatype Place = Nowhere | Incoming | Published

  datatype Disk = Disk(
    tail: Option<Bytes>, segments: map<nat, Bytes>, local: seq<Part>,
    place: Place, store: map<Object, Bytes>, remote: seq<Part>, clock: nat)

  // ------------------------------------------------------------ logical log

  function Named(parts: seq<Part>): set<nat> { set p | p in parts :: p.segment }

  function Fetch(store: map<Object, Bytes>, o: Object): Bytes { if o in store then store[o] else [] }

  function Joined(parts: seq<Part>, store: map<Object, Bytes>): Bytes {
    if parts == [] then [] else Joined(parts[..|parts| - 1], store) + Fetch(store, parts[|parts| - 1].name)
  }

  // Local segments named below k that are not in `skip`, in name order.
  function Unlisted(segments: map<nat, Bytes>, skip: set<nat>, k: nat): Bytes {
    if k == 0 then []
    else Unlisted(segments, skip, k - 1) + (if (k - 1) in segments && (k - 1) !in skip then segments[k - 1] else [])
  }

  function Tail(tail: Option<Bytes>): Bytes { if tail.Some? then tail.value else [] }

  // What a reader sees: archived parts, sealed local segments, growing tail.
  function View(d: Disk): Bytes {
    Joined(d.local, d.store) + Unlisted(d.segments, Named(d.local), d.clock) + Tail(d.tail)
  }

  // -------------------------------------------------------------- invariant

  ghost predicate Stored(p: Part, d: Disk) {
    && p.name in d.store && d.store[p.name] == p.digest && p.size == |p.digest|
    && (p.name.Sealed? ==> p.name.segment == p.segment)
    && (p.segment in d.segments ==> d.segments[p.segment] == p.digest)
    && p.segment < d.clock
  }

  ghost predicate Next(segments: map<nat, Bytes>, skip: set<nat>, n: nat) {
    n in segments && n !in skip && forall m :: m in segments && m !in skip ==> n <= m
  }

  // `parts` are the first segments not in `skip`, in name order.
  ghost predicate Lists(segments: map<nat, Bytes>, skip: set<nat>, parts: seq<Part>) {
    parts != [] ==>
      && Lists(segments, skip, parts[..|parts| - 1])
      && Next(segments, skip + Named(parts[..|parts| - 1]), parts[|parts| - 1].segment)
  }

  ghost predicate Distinct(parts: seq<Part>) {
    forall i, j :: 0 <= i < j < |parts| ==> parts[i].name != parts[j].name
  }

  // A manifest that may be published: everything it names is stored, and it continues the
  // local manifest with the next local segments.
  ghost predicate Publishable(m: seq<Part>, d: Disk) {
    && d.local <= m && Distinct(m)
    && (forall p :: p in m ==> Stored(p, d))
    && Lists(d.segments, Named(d.local), m[|d.local|..])
  }

  ghost predicate Intact(d: Disk, log: Bytes) {
    && View(d) == log
    && Publishable(d.remote, d)
    && (forall n :: n in d.segments ==> n < d.clock)
    && (d.place != Published ==> d.local == [])
    && (d.place == Nowhere ==> d.remote == [])
  }

  // Later states still hold what a manifest once promised to readers.
  ghost predicate Persists(a: Disk, b: Disk) {
    && a.local <= b.local
    && forall p :: p in a.local ==> p.name in a.store && p.name in b.store && a.store[p.name] == b.store[p.name]
  }

  lemma PersistsTransitively(a: Disk, b: Disk, c: Disk)
    requires Persists(a, b) && Persists(b, c)
    ensures Persists(a, c)
  {
    assert forall p :: p in a.local ==> p in b.local;
  }

  // ------------------------------------------------------- lemmas on lists

  lemma JoinedStep(parts: seq<Part>, p: Part, store: map<Object, Bytes>)
    ensures Joined(parts + [p], store) == Joined(parts, store) + Fetch(store, p.name)
  {
    assert (parts + [p])[..|parts|] == parts;
  }

  lemma AppendLast(a: seq<Part>, init: seq<Part>, p: Part)
    ensures (a + init) + [p] == a + (init + [p])
  {
  }

  lemma {:induction false} JoinedConcat(a: seq<Part>, b: seq<Part>, store: map<Object, Bytes>)
    ensures Joined(a + b, store) == Joined(a, store) + Joined(b, store)
  {
    if b == [] {
      assert a + b == a;
    } else {
      hide Joined, Fetch;
      var init, p := b[..|b| - 1], b[|b| - 1];
      JoinedConcat(a, init, store);
      JoinedStep(init, p, store);
      JoinedStep(a + init, p, store);
      AppendLast(a, init, p);
      assert init + [p] == b;
      Associative(Joined(a, store), Joined(init, store), Fetch(store, p.name));
    }
  }

  lemma {:induction false} JoinedAgrees(parts: seq<Part>, a: map<Object, Bytes>, b: map<Object, Bytes>)
    requires forall p :: p in parts ==> Fetch(a, p.name) == Fetch(b, p.name)
    ensures Joined(parts, a) == Joined(parts, b)
  {
    if parts != [] { JoinedAgrees(parts[..|parts| - 1], a, b); }
  }

  lemma NamedStep(parts: seq<Part>, p: Part)
    ensures Named(parts + [p]) == Named(parts) + {p.segment}
  {
    assert forall q :: q in parts + [p] <==> q in parts || q == p;
  }

  lemma NamedConcat(a: seq<Part>, b: seq<Part>)
    ensures Named(a + b) == Named(a) + Named(b)
  {
    assert forall q :: q in a + b <==> q in a || q in b;
  }

  lemma {:induction false} UnlistedAgrees(a: map<nat, Bytes>, s: set<nat>, b: map<nat, Bytes>, t: set<nat>, k: nat)
    requires forall n: nat :: n < k ==> (n in a && n !in s <==> n in b && n !in t)
    requires forall n: nat :: n < k && n in a && n !in s ==> a[n] == b[n]
    ensures Unlisted(a, s, k) == Unlisted(b, t, k)
  {
    if k > 0 { UnlistedAgrees(a, s, b, t, k - 1); }
  }

  lemma {:induction false} UnlistedNone(segments: map<nat, Bytes>, skip: set<nat>, k: nat)
    requires forall n :: n in segments && n < k ==> n in skip
    ensures Unlisted(segments, skip, k) == []
  {
    if k > 0 { UnlistedNone(segments, skip, k - 1); }
  }

  // The next segment comes first.
  lemma {:induction false} UnlistedNext(segments: map<nat, Bytes>, skip: set<nat>, n: nat, k: nat)
    requires Next(segments, skip, n) && n < k
    ensures Unlisted(segments, skip, k) == segments[n] + Unlisted(segments, skip + {n}, k)
  {
    if n == k - 1 {
      UnlistedNone(segments, skip, n);
      UnlistedNone(segments, skip + {n}, n);
    } else {
      UnlistedNext(segments, skip, n, k - 1);
    }
  }

  // Archived or still local, the next segments of a log read the same.
  lemma {:induction false} ListsView(d: Disk, skip: set<nat>, parts: seq<Part>)
    requires Lists(d.segments, skip, parts) && forall p :: p in parts ==> Stored(p, d)
    ensures Unlisted(d.segments, skip, d.clock) == Joined(parts, d.store) + Unlisted(d.segments, skip + Named(parts), d.clock)
  {
    if parts == [] {
      assert skip + Named(parts) == skip;
    } else {
      hide Unlisted, Joined, Named, Next, Stored;
      var before, p := parts[..|parts| - 1], parts[|parts| - 1];
      ListsView(d, skip, before);
      ListsViewStep(d, skip + Named(before), p);
      NamedStep(before, p);
      JoinedStep(before, p, d.store);
      assert before + [p] == parts;
      SkipMore(skip, Named(before), p.segment);
      Associative(Joined(before, d.store), p.digest, Unlisted(d.segments, skip + Named(parts), d.clock));
    }
  }

  lemma SkipMore(a: set<nat>, b: set<nat>, n: nat)
    ensures a + b + {n} == a + (b + {n})
  {
  }

  lemma Associative(a: Bytes, b: Bytes, c: Bytes)
    ensures a + (b + c) == (a + b) + c
  {
  }

  lemma ListsViewStep(d: Disk, skip: set<nat>, p: Part)
    requires Next(d.segments, skip, p.segment) && Stored(p, d)
    ensures Unlisted(d.segments, skip, d.clock) == p.digest + Unlisted(d.segments, skip + {p.segment}, d.clock)
    ensures Fetch(d.store, p.name) == p.digest
  {
    UnlistedNext(d.segments, skip, p.segment, d.clock);
  }

  // Sealing under the newest name, or unlinking what is skipped anyway, keeps the order.
  lemma {:induction false} ListsAgree(a: map<nat, Bytes>, b: map<nat, Bytes>, skip: set<nat>, parts: seq<Part>)
    requires Lists(a, skip, parts)
    requires forall n :: n in a && n !in skip ==> n in b
    requires forall n :: n in b && n !in a ==> forall m :: m in a ==> m < n
    ensures Lists(b, skip, parts)
  {
    if parts != [] {
      ListsAgree(a, b, skip, parts[..|parts| - 1]);
    }
  }

  // Lists in two stages.
  lemma LocalStored(d: Disk)
    requires Publishable(d.remote, d)
    ensures forall p :: p in d.local ==> p in d.remote && Stored(p, d)
  {
    hide Lists;
    forall p | p in d.local ensures p in d.remote {
      var i :| 0 <= i < |d.local| && d.local[i] == p;
      assert d.remote[i] == p;
    }
  }

  // Changes that leave what the manifests name alone.
  lemma PublishableAgrees(d: Disk, e: Disk, m: seq<Part>)
    requires Publishable(m, d) && e.local == d.local
    requires forall p :: p in m ==> Stored(p, e)
    requires Lists(d.segments, Named(d.local), m[|d.local|..]) ==> Lists(e.segments, Named(e.local), m[|e.local|..])
    ensures Publishable(m, e)
  {
    hide Lists;
  }

  // ------------------------------------------------------- file operations

  lemma AppendKeeps(d: Disk, log: Bytes, data: Bytes)
    requires Intact(d, log)
    ensures var e := d.(tail := Some(Tail(d.tail) + data));
      Intact(e, log + data) && Persists(d, e)
  {
    hide Lists, Joined, Unlisted, Named;
    var e := d.(tail := Some(Tail(d.tail) + data));
    LocalStored(d);
    forall p | p in d.remote ensures Stored(p, e) { assert Stored(p, d); }
    PublishableAgrees(d, e, d.remote);
    assert View(e) == View(d) + data;
  }

  function Seal(d: Disk, now: nat): Disk
    requires d.tail.Some?
  {
    d.(tail := None, segments := d.segments[now := d.tail.value], clock := now + 1)
  }

  lemma SealKeeps(d: Disk, log: Bytes, now: nat)
    requires Intact(d, log) && d.tail.Some? && d.clock <= now
    ensures Intact(Seal(d, now), log) && Persists(d, Seal(d, now))
  {
    SealView(d, now);
    hide Lists, Joined, Unlisted, Named;
    var e := Seal(d, now);
    LocalStored(d);
    ListsAgree(d.segments, e.segments, Named(d.local), d.remote[|d.local|..]);
    forall p | p in d.remote ensures Stored(p, e) { assert Stored(p, d); }
    PublishableAgrees(d, e, d.remote);
  }

  lemma SealView(d: Disk, now: nat)
    requires d.tail.Some? && d.clock <= now && Publishable(d.remote, d)
    requires forall n :: n in d.segments ==> n < d.clock
    ensures View(Seal(d, now)) == View(d)
  {
    SealUnlisted(d, now);
    hide Lists, Joined, Unlisted, Named;
    var archived, sealed := Joined(d.local, d.store), Unlisted(d.segments, Named(d.local), d.clock);
    assert archived + (sealed + d.tail.value) + [] == archived + sealed + d.tail.value;
  }

  lemma SealUnlisted(d: Disk, now: nat)
    requires d.tail.Some? && d.clock <= now && Publishable(d.remote, d)
    requires forall n :: n in d.segments ==> n < d.clock
    ensures Unlisted(Seal(d, now).segments, Named(d.local), now + 1) == Unlisted(d.segments, Named(d.local), d.clock) + d.tail.value
  {
    hide Lists, Joined;
    var skip := Named(d.local);
    LocalStored(d);
    assert now !in skip;
    UnlistedClock(d.segments, skip, d.clock, now);
    UnlistedAgrees(d.segments, skip, Seal(d, now).segments, skip, now);
  }

  lemma {:induction false} UnlistedClock(segments: map<nat, Bytes>, skip: set<nat>, clock: nat, now: nat)
    requires clock <= now && forall n :: n in segments ==> n < clock
    ensures Unlisted(segments, skip, now) == Unlisted(segments, skip, clock)
    decreases now
  {
    if clock < now { UnlistedClock(segments, skip, clock, now - 1); }
  }

  // Copying replaces no object that a manifest names.
  lemma CopyKeeps(d: Disk, log: Bytes, m: seq<Part>, o: Object, content: Bytes)
    requires Intact(d, log) && Publishable(m, d) && d.remote <= m
    requires forall p :: p in m ==> p.name != o
    ensures var e := d.(store := d.store[o := content]);
      Intact(e, log) && Publishable(m, e) && Persists(d, e)
  {
    hide Lists, Joined, Unlisted, Named;
    var e := d.(store := d.store[o := content]);
    LocalStored(d);
    forall p | p in m ensures Stored(p, e) { assert Stored(p, d); }
    forall p | p in d.remote ensures p in m {
      var i :| 0 <= i < |d.remote| && d.remote[i] == p;
      assert m[i] == p;
    }
    PublishableAgrees(d, e, m);
    PublishableAgrees(d, e, d.remote);
    JoinedAgrees(d.local, d.store, e.store);
  }

  lemma PublishRemoteKeeps(d: Disk, log: Bytes, m: seq<Part>)
    requires Intact(d, log) && Publishable(m, d) && d.place != Nowhere
    ensures Intact(d.(remote := m), log) && Publishable(m, d.(remote := m)) && Persists(d, d.(remote := m))
  {
    hide Lists, Joined, Unlisted, Named;
    var e := d.(remote := m);
    LocalStored(d);
    forall p | p in m ensures Stored(p, e) { assert Stored(p, d); }
    PublishableAgrees(d, e, m);
  }

  lemma PublishLocalKeeps(d: Disk, log: Bytes)
    requires Intact(d, log) && d.place == Published
    ensures Intact(d.(local := d.remote), log) && Persists(d, d.(local := d.remote))
  {
    var e, rest := d.(local := d.remote), d.remote[|d.local|..];
    assert d.remote == d.local + rest && e.remote[|e.local|..] == [];
    forall p | p in d.remote ensures Stored(p, e) { assert Stored(p, d); }
    LocalStored(d);
    ViewWhenPublished(d, rest);
  }

  lemma ViewWhenPublished(d: Disk, rest: seq<Part>)
    requires d.remote == d.local + rest && Lists(d.segments, Named(d.local), rest) && forall p :: p in rest ==> Stored(p, d)
    ensures View(d.(local := d.remote)) == View(d)
  {
    hide Lists, Joined, Unlisted;
    var skip, tail := Named(d.local), Tail(d.tail);
    var archived, local, left := Joined(d.local, d.store), Joined(rest, d.store), Unlisted(d.segments, skip + Named(rest), d.clock);
    ListsView(d, skip, rest);
    JoinedConcat(d.local, rest, d.store);
    NamedConcat(d.local, rest);
    assert archived + (local + left) + tail == (archived + local) + left + tail;
  }

  lemma UnlinkKeeps(d: Disk, log: Bytes, n: nat)
    requires Intact(d, log) && n in Named(d.local)
    ensures Intact(d.(segments := d.segments - {n}), log) && Persists(d, d.(segments := d.segments - {n}))
  {
    hide Lists, Joined, Unlisted, Named;
    var e := d.(segments := d.segments - {n});
    LocalStored(d);
    UnlistedAgrees(d.segments, Named(d.local), e.segments, Named(d.local), d.clock);
    ListsAgree(d.segments, e.segments, Named(d.local), d.remote[|d.local|..]);
    forall p | p in d.remote ensures Stored(p, e) { assert Stored(p, d); }
    PublishableAgrees(d, e, d.remote);
  }

  // ---------------------------------------------------------------- history

  datatype Shot = Shot(disk: Disk, log: Bytes)

  // Every recorded state shows the log of its time and keeps the promises of earlier ones.
  ghost predicate History(trace: seq<Shot>) {
    && (forall i :: 0 <= i < |trace| ==> Intact(trace[i].disk, trace[i].log))
    && (forall i, j :: 0 <= i < j < |trace| ==> Persists(trace[i].disk, trace[j].disk) && trace[i].log <= trace[j].log)
  }

  ghost predicate EndsWith(trace: seq<Shot>, d: Disk, log: Bytes) {
    trace != [] && trace[|trace| - 1] == Shot(d, log)
  }

  lemma HistoryGrows(trace: seq<Shot>, d: Disk, log: Bytes, e: Disk, longer: Bytes)
    requires History(trace) && EndsWith(trace, d, log)
    requires Intact(e, longer) && Persists(d, e) && log <= longer
    ensures History(trace + [Shot(e, longer)])
  {
    hide Intact;
    forall i | 0 <= i < |trace| ensures Persists(trace[i].disk, e) && trace[i].log <= longer {
      if i < |trace| - 1 { PersistsTransitively(trace[i].disk, d, e); }
    }
  }

  lemma LastPersists(trace: seq<Shot>, at: nat)
    requires History(trace) && at < |trace|
    ensures Intact(trace[at].disk, trace[at].log) && Persists(trace[at].disk, trace[|trace| - 1].disk)
  {
    hide View, Lists;
    if at == |trace| - 1 {
      LocalStored(trace[at].disk);
      forall p | p in trace[at].disk.local ensures p.name in trace[at].disk.store { assert Stored(p, trace[at].disk); }
    }
  }

  // ---------------------------------------------------------------- readers

  // Local parts are open files; archived ones are opened later, by name and size.
  datatype Piece = Local(content: Bytes) | Remote(name: Object, size: nat)

  function Resolve(p: Piece, store: map<Object, Bytes>): Bytes {
    match p
    case Local(content) => content
    case Remote(name, _) => Fetch(store, name)
  }

  function Resolved(pieces: seq<Piece>, store: map<Object, Bytes>): Bytes {
    if pieces == [] then [] else Resolved(pieces[..|pieces| - 1], store) + Resolve(pieces[|pieces| - 1], store)
  }

  // What a reader needs from the archive stays there.
  ghost predicate Held(pieces: seq<Piece>, d: Disk) {
    forall p :: p in pieces && p.Remote? ==> exists q :: q in d.local && q.name == p.name && q.size == p.size
  }

  lemma {:induction false} HeldReadsLater(pieces: seq<Piece>, d: Disk, later: Disk)
    requires Held(pieces, d) && Persists(d, later)
    ensures Resolved(pieces, later.store) == Resolved(pieces, d.store)
  {
    if pieces != [] {
      var p := pieces[|pieces| - 1];
      HeldReadsLater(pieces[..|pieces| - 1], d, later);
      if p.Remote? { var q :| q in d.local && q.name == p.name; }
    }
  }

  lemma ResolvedStep(pieces: seq<Piece>, p: Piece, store: map<Object, Bytes>)
    ensures Resolved(pieces + [p], store) == Resolved(pieces, store) + Resolve(p, store)
  {
    assert (pieces + [p])[..|pieces|] == pieces;
  }

  // ------------------------------------------------------------ opened parts

  // An open part: the file may have grown since its size was captured.
  datatype Source = Source(content: Bytes, size: nat)

  function Total(parts: seq<Source>): nat {
    if parts == [] then 0 else parts[0].size + Total(parts[1..])
  }

  ghost predicate Whole(parts: seq<Source>) { forall p :: p in parts ==> p.size <= |p.content| }

  function Content(parts: seq<Source>): (r: Bytes)
    requires Whole(parts)
    ensures |r| == Total(parts)
  {
    if parts == [] then [] else parts[0].content[..parts[0].size] + Content(parts[1..])
  }

  lemma {:induction false} ContentAt(parts: seq<Source>, i: nat)
    requires Whole(parts) && i < |parts|
    ensures Total(parts[..i]) + parts[i].size <= Total(parts)
    ensures Whole(parts[..i]) && Total(parts[..i + 1]) == Total(parts[..i]) + parts[i].size
    ensures Content(parts)[Total(parts[..i])..][..parts[i].size] == parts[i].content[..parts[i].size]
  {
    if i > 0 {
      ContentAt(parts[1..], i - 1);
      assert parts[..i][1..] == parts[1..][..i - 1] && parts[..i + 1][1..] == parts[1..][..i];
    } else {
      assert parts[..1][1..] == [] && parts[..0] == [];
    }
  }

  lemma {:induction false} ContentStep(parts: seq<Source>, p: Source)
    requires Whole(parts) && p.size <= |p.content|
    ensures Whole(parts + [p]) && Content(parts + [p]) == Content(parts) + p.content[..p.size]
  {
    if parts == [] {
      assert [p][1..] == [] && [] + [p] == [p];
    } else {
      ContentStep(parts[1..], p);
      assert (parts + [p])[1..] == parts[1..] + [p];
    }
  }

  // No archived part fails to open.
  ghost predicate CanOpen(pieces: seq<Piece>, openable: nat -> bool) {
    forall i: nat :: i < |pieces| && pieces[i].Remote? ==> openable(i)
  }

  // The archive still has every object, of the size the snapshot expects.
  predicate Available(pieces: seq<Piece>, store: map<Object, Bytes>) {
    forall p :: p in pieces && p.Remote? ==> p.name in store && |store[p.name]| == p.size
  }

  // What the open local files hold by now: they only grow.
  ghost predicate Grown(pieces: seq<Piece>, files: seq<Bytes>) {
    |files| == |pieces| && forall i :: 0 <= i < |pieces| && pieces[i].Local? ==> pieces[i].content <= files[i]
  }

  function Open(p: Piece, file: Bytes, store: map<Object, Bytes>): Source {
    match p
    case Local(content) => Source(file, |content|)
    case Remote(name, size) => Source(Fetch(store, name), size)
  }

  ghost predicate Opened(pieces: seq<Piece>, files: seq<Bytes>, store: map<Object, Bytes>, parts: seq<Source>) {
    |parts| == |pieces| == |files| && forall i :: 0 <= i < |parts| ==> parts[i] == Open(pieces[i], files[i], store)
  }

  /** Opened parts read as the pieces did, whatever was appended to the local files since. */
  lemma {:induction false} OpenedReads(pieces: seq<Piece>, files: seq<Bytes>, store: map<Object, Bytes>, parts: seq<Source>)
    requires Opened(pieces, files, store, parts) && Grown(pieces, files) && Available(pieces, store)
    ensures Whole(parts) && Content(parts) == Resolved(pieces, store)
  {
    if parts != [] {
      var n := |parts| - 1;
      OpenedLast(pieces, files, store, parts);
      assert parts[..n] + [parts[n]] == parts;
      hide Opened, Grown, Available;
      OpenedReads(pieces[..n], files[..n], store, parts[..n]);
      ContentStep(parts[..n], parts[n]);
    }
  }

  lemma OpenedLast(pieces: seq<Piece>, files: seq<Bytes>, store: map<Object, Bytes>, parts: seq<Source>)
    requires Opened(pieces, files, store, parts) && Grown(pieces, files) && Available(pieces, store) && parts != []
    ensures var n := |parts| - 1;
      && |pieces| == |files| == n + 1
      && Opened(pieces[..n], files[..n], store, parts[..n]) && Grown(pieces[..n], files[..n]) && Available(pieces[..n], store)
      && parts[n].size <= |parts[n].content| && parts[n].content[..parts[n].size] == Resolve(pieces[n], store)
  {
    assert pieces[|parts| - 1] in pieces;
  }

  // A snapshot of the log at one recorded state.
  ghost predicate Snapshot(pieces: seq<Piece>, s: Shot) { Held(pieces, s.disk) && Resolved(pieces, s.disk.store) == s.log }

  /** A snapshot can be opened, and reads the same, in every later state. */
  lemma SnapshotLasts(pieces: seq<Piece>, s: Shot, later: Disk)
    requires Snapshot(pieces, s) && Intact(s.disk, s.log) && Persists(s.disk, later)
    ensures Available(pieces, later.store) && Resolved(pieces, later.store) == s.log
  {
    hide View, Lists, Resolved;
    HeldReadsLater(pieces, s.disk, later);
    LocalStored(s.disk);
    forall p | p in pieces && p.Remote? ensures p.name in later.store && |later.store[p.name]| == p.size {
      var q :| q in s.disk.local && q.name == p.name && q.size == p.size;
      assert Stored(q, s.disk);
    }
  }

  // ------------------------------------------------------------ the archive

  class Archive {
    var disk: Disk
    ghost var log: Bytes
    ghost var trace: seq<Shot>
    // Failed file operations.
    ghost var faults: nat

    ghost predicate Sound()
      reads this
    {
      Intact(disk, log) && History(trace) && EndsWith(trace, disk, log)
    }

    constructor ()
      ensures Sound() && log == []
    {
      var d := Disk(None, map[], [], Nowhere, map[], [], 0);
      disk, log, trace, faults := d, [], [Shot(d, [])], 0;
    }

    // One file operation: afterwards the log is still readable, whatever happens next.
    ghost method Record(before: Disk, shorter: Bytes)
      requires History(trace) && EndsWith(trace, before, shorter)
      requires Intact(disk, log) && Persists(before, disk) && shorter <= log
      modifies this`trace
      ensures Sound() && trace == old(trace) + [Shot(disk, log)]
    {
      HistoryGrows(trace, before, shorter, disk, log);
      trace := trace + [Shot(disk, log)];
    }

    method Append(data: Bytes)
      requires Sound()
      modifies this`disk, this`log, this`trace
      ensures Sound() && old(trace) <= trace && log == old(log) + data && disk == old(disk).(tail := disk.tail)
    {
      hide Intact, History, View;
      ghost var before, shorter := disk, log;
      AppendKeeps(disk, log, data);
      disk := disk.(tail := Some(Tail(disk.tail) + data));
      log := log + data;
      Record(before, shorter);
    }

    // While the worker is busy the Controller goes on appending.
    method Others()
      requires Sound()
      modifies this`disk, this`log, this`trace
      ensures Sound() && old(trace) <= trace && old(log) <= log && disk == old(disk).(tail := disk.tail)
    {
      var appends: nat := *;
      while appends > 0
        invariant Sound() && old(trace) <= trace && old(log) <= log && disk == old(disk).(tail := disk.tail)
      {
        var data: Bytes := *;
        Append(data);
        appends := appends - 1;
      }
    }

    // ---------------------------------------------------------- the worker

    // The segments in name order, as a sorted directory listing gives them.
    method Listing() returns (files: seq<nat>)
      requires Sound()
      ensures Ascending(files) && forall n :: n in files <==> n in disk.segments
    {
      files := [];
      for n := 0 to disk.clock
        invariant Ascending(files) && forall m :: m in files <==> m in disk.segments && m < n
      {
        if n in disk.segments { files := Longer(files, n); }
      }
    }

    // Those the local manifest does not name, and those it does.
    method Classify(files: seq<nat>) returns (uploads: seq<nat>, cleanup: seq<nat>)
      requires Sound() && Ascending(files) && forall n :: n in files <==> n in disk.segments
      ensures Pending(uploads, disk)
      ensures forall n :: n in cleanup <==> n in disk.segments && n in Named(disk.local)
    {
      uploads, cleanup := [], [];
      for i := 0 to |files|
        invariant Ascending(uploads) && forall n :: n in uploads <==> n in files[..i] && n !in Named(disk.local)
        invariant forall n :: n in cleanup <==> n in files[..i] && n in Named(disk.local)
      {
        var n := files[i];
        assert files[..i + 1] == files[..i] + [n];
        assert forall m :: m in files[..i] ==> m < n;
        if n in Named(disk.local) { cleanup := cleanup + [n]; } else { uploads := Longer(uploads, n); }
      }
      assert files[..|files|] == files;
    }

    // Take over what an interrupted attempt already published in the archive.
    method Merge() returns (manifest: seq<Part>)
      requires Sound()
      ensures manifest == disk.remote
    {
      hide Lists, View, History;
      manifest := disk.local;
      for i := 0 to |disk.remote|
        invariant manifest == if i <= |disk.local| then disk.local else disk.remote[..i]
      {
        var part := disk.remote[i];
        if !(exists k :: 0 <= k < |disk.local| && disk.local[k].name == part.name) {
          manifest := manifest + [part];
        }
      }
    }

    // One file copied, verified and renamed into place.
    method Copy(n: nat, ghost manifest: seq<Part>, name: Object) returns (part: Part, ok: bool)
      requires Sound() && Publishable(manifest, disk) && disk.remote <= manifest && n in disk.segments
      requires forall p :: p in manifest ==> p.name != name
      requires name == Logical || name == Sealed(n)
      modifies this
      ensures Sound() && Publishable(manifest, disk) && old(trace) <= trace && log == old(log)
      ensures disk == old(disk).(store := disk.store)
      ensures ok ==> part.name == name && part.segment == n && Stored(part, disk)
      ensures faults >= old(faults) && (!ok ==> faults > old(faults))
    {
      part := Part(name, |disk.segments[n]|, disk.segments[n], n);
      ok := *;
      if !ok { faults := faults + 1; return; }
      ghost var before := disk;
      CopyKeeps(disk, log, manifest, name, disk.segments[n]);
      disk := disk.(store := disk.store[name := disk.segments[n]]);
      Record(before, log);
    }

    // Copy one segment, unless an earlier attempt published it already.
    method Upload(uploads: seq<nat>, i: nat, was: seq<Part>) returns (manifest: seq<Part>, ok: bool)
      requires Sound() && Pending(uploads, disk) && i < |uploads|
      requires Publishable(was, disk) && disk.remote <= was && Covered(uploads, i, was)
      modifies this
      ensures Sound() && old(trace) <= trace && old(log) <= log
      ensures disk == old(disk).(store := disk.store, tail := disk.tail)
      ensures ok ==> Publishable(manifest, disk) && was <= manifest && Covered(uploads, i + 1, manifest)
      ensures faults >= old(faults) && (!ok ==> faults > old(faults))
    {
      hide Publishable, Intact, View, History;
      var n := uploads[i];
      if n in Named(was) {
        var part := Find(was, n);
        var read: bool := *;
        if !read { faults := faults + 1; }
        PublishedIsSame(was, disk, part);
        return was, read && disk.segments[n] == part.digest;
      }
      var name := if was == [] then Logical else Sealed(n);
      NameIsFree(was, disk, n);
      NextUpload(was, disk, uploads, i);
      var part;
      part, ok := Copy(n, was, name);
      manifest := was + [part];
      if ok {
        ManifestGrows(was, disk, part);
        NamedStep(was, part);
        ghost var copied := disk;
        Others();
        TailIsIrrelevant(manifest, copied, disk);
      }
    }

    /** Copy every segment that no manifest names yet. A segment that turns out to be
        published already is only checked. */
    method UploadAll(uploads: seq<nat>) returns (manifest: seq<Part>, ok: bool)
      requires Sound() && Pending(uploads, disk)
      modifies this
      ensures Sound() && old(trace) <= trace && old(log) <= log
      ensures disk == old(disk).(store := disk.store, tail := disk.tail)
      ensures ok ==> Publishable(manifest, disk) && disk.segments.Keys <= Named(manifest)
      ensures faults >= old(faults) && (!ok ==> faults > old(faults))
    {
      hide Publishable, View, History;
      manifest := Merge();
      ok := true;
      for i := 0 to |uploads|
        invariant ok && Sound() && old(trace) <= trace && old(log) <= log && faults >= old(faults)
        invariant disk == old(disk).(store := disk.store, tail := disk.tail)
        invariant Publishable(manifest, disk) && disk.remote <= manifest && Covered(uploads, i, manifest)
      {
        manifest, ok := Upload(uploads, i, manifest);
        if !ok { return; }
      }
      AllUploaded(manifest, disk, uploads);
    }

    // Seal the tail under the newest name, if there is one.
    method Rotate(now: nat) returns (ok: bool)
      requires Sound() && disk.clock <= now
      modifies this
      ensures Sound() && old(trace) <= trace && log == old(log)
      ensures disk.local == old(disk).local && disk.clock <= now + 1
      ensures ok ==> disk.tail == None
      ensures faults >= old(faults) && (!ok ==> faults > old(faults))
    {
      hide Intact, View, History, Seal;
      if disk.tail.None? { return true; }
      ok := *;
      if !ok { faults := faults + 1; return; }
      ghost var before := disk;
      SealKeeps(disk, log, now);
      SealFields(disk, now);
      disk := disk.(tail := None, segments := disk.segments[now := disk.tail.value], clock := now + 1);
      Record(before, log);
    }

    // The archive first, then its directory's final name, then the local manifest.
    method Publish(manifest: seq<Part>, unpublished: bool) returns (ok: bool)
      requires Sound() && Publishable(manifest, disk) && disk.place != Nowhere && (unpublished <==> disk.place == Incoming)
      modifies this
      ensures Sound() && old(trace) <= trace && old(log) <= log
      ensures old(disk).local <= disk.local && disk.segments == old(disk).segments
      ensures ok ==> disk.local == manifest
      ensures faults >= old(faults) && (!ok ==> faults > old(faults))
    {
      hide Publishable, View, History;
      var written, renamed, recorded: bool := *, *, *;
      if !written { faults := faults + 1; return false; }
      ghost var before := disk;
      PublishRemoteKeeps(disk, log, manifest);
      disk := disk.(remote := manifest);
      Record(before, log);
      Others();
      if unpublished {
        if !renamed { faults := faults + 1; return false; }
        before := disk;
        PlaceKeeps(disk, log, Published);
        disk := disk.(place := Published);
        Record(before, log);
        Others();
      }
      if !recorded { faults := faults + 1; return false; }
      before := disk;
      PublishLocalKeeps(disk, log);
      disk := disk.(local := manifest);
      Record(before, log);
      ok := true;
    }

    // Unlink the local copies; the local manifest already names every one of them.
    method Unlink(cleanup: seq<nat>) returns (ok: bool)
      requires Sound() && forall n :: n in cleanup ==> n in Named(disk.local)
      modifies this
      ensures Sound() && old(trace) <= trace && log == old(log) && disk.local == old(disk).local
      ensures ok ==> disk.segments.Keys == old(disk).segments.Keys - (set n | n in cleanup)
      ensures faults >= old(faults) && (!ok ==> faults > old(faults))
    {
      hide Intact, View, History;
      for i := 0 to |cleanup|
        invariant Sound() && old(trace) <= trace && log == old(log) && disk.local == old(disk).local && faults == old(faults)
        invariant disk.segments.Keys == old(disk).segments.Keys - (set n | n in cleanup[..i])
      {
        var unlinked: bool := *;
        if !unlinked { faults := faults + 1; return false; }
        assert cleanup[..i + 1] == cleanup[..i] + [cleanup[i]];
        ghost var before := disk;
        UnlinkKeeps(disk, log, cleanup[i]);
        disk := disk.(segments := disk.segments - {cleanup[i]});
        Record(before, log);
      }
      assert cleanup[..|cleanup|] == cleanup;
      ok := true;
    }

    // Create the directory that an unpublished archive is assembled in.
    method Enter()
      requires Sound()
      modifies this`disk, this`trace
      ensures Sound() && old(trace) <= trace && log == old(log)
      ensures disk == old(disk).(place := if old(disk).place == Nowhere then Incoming else old(disk).place)
    {
      hide Intact, History;
      if disk.place == Nowhere {
        ghost var before := disk;
        PlaceKeeps(disk, log, Incoming);
        disk := disk.(place := Incoming);
        Record(before, log);
      }
    }

    lemma NothingSealed()
      requires Sound() && disk.segments.Keys == {}
      ensures disk.segments == map[] && log == Joined(disk.local, disk.store) + Tail(disk.tail)
    {
      hide Publishable, History, View, Joined;
      ViewUnsealed(disk);
    }

    /** One archiving attempt, which may stop after any file operation. Whatever happens,
        the log reads the same plus what was appended; and a complete attempt leaves no
        sealed segment behind, so the whole log is in the archive and the tail. */
    method ArchiveRun(now: nat) returns (ok: bool)
      requires Sound() && disk.clock <= now
      modifies this
      ensures Sound() && old(trace) <= trace && old(log) <= log
      ensures ok ==> disk.segments == map[] && log == Joined(disk.local, disk.store) + Tail(disk.tail)
      ensures faults >= old(faults) && (!ok ==> faults > old(faults))
    {
      hide Archive.Sound, Publishable, Joined, Named;
      ok := Rotate(now);
      if !ok { return; }
      var files := Listing();
      var uploads, cleanup := Classify(files);
      if uploads == [] && cleanup == [] {
        NothingSealed();
        return true;
      }
      Others();
      var unpublished := disk.place != Published;
      Enter();
      var manifest;
      manifest, ok := UploadAll(uploads);
      if !ok { return; }
      ok := Publish(manifest, unpublished);
      if !ok { return; }
      ok := Unlink(cleanup + uploads);
      if ok { NothingSealed(); }
    }

    method CaptureArchived() returns (pieces: seq<Piece>, size: nat, ok: bool)
      requires Sound()
      ensures ok && Captured(pieces, size, disk, Joined(disk.local, disk.store))
    {
      hide Lists, View, History, Joined, Captured;
      pieces, size := [], 0;
      LocalStored(disk);
      NothingCaptured(disk);
      for i := 0 to |disk.local|
        invariant Captured(pieces, size, disk, Joined(disk.local[..i], disk.store))
      {
        var stored := disk.local[i];
        assert Stored(stored, disk);
        ArchivedStep(pieces, size, disk, i);
        var piece := Remote(stored.name, stored.size);
        if stored.segment in disk.segments {
          piece := Local(disk.segments[stored.segment]);
          if |disk.segments[stored.segment]| != stored.size { return pieces, size, false; }
        }
        pieces, size := pieces + [piece], size + stored.size;
      }
      assert disk.local[..|disk.local|] == disk.local;
      ok := true;
    }

    method CaptureSealed(start: seq<Piece>, length: nat, ghost archived: Bytes) returns (pieces: seq<Piece>, size: nat)
      requires Captured(start, length, disk, archived)
      ensures Captured(pieces, size, disk, archived + Unlisted(disk.segments, Named(disk.local), disk.clock))
    {
      pieces, size := start, length;
      assert archived + [] == archived;
      for n := 0 to disk.clock
        invariant Captured(pieces, size, disk, archived + Unlisted(disk.segments, Named(disk.local), n))
      {
        ghost var before := Unlisted(disk.segments, Named(disk.local), n);
        if n in disk.segments && n !in Named(disk.local) {
          hide Captured;
          var content := disk.segments[n];
          CapturedStep(pieces, size, disk, archived + before, Local(content));
          Associative(archived, before, content);
          pieces, size := pieces + [Local(content)], size + |content|;
        } else {
          assert before + [] == before;
        }
      }
    }

    /** A snapshot for a reader. What it holds reads as the log of this moment, now and in
        every later state of the archive. */
    method CaptureRunSource() returns (pieces: seq<Piece>, size: nat, ok: bool)
      requires Sound()
      ensures ok && size == |log| && Resolved(pieces, disk.store) == log
      ensures Snapshot(pieces, Shot(disk, log))
    {
      hide Joined, Unlisted, Named, Lists, Resolved, History, Publishable;
      pieces, size, ok := CaptureArchived();
      if !ok { return; }
      pieces, size := CaptureSealed(pieces, size, Joined(disk.local, disk.store));
      if disk.tail.Some? {
        CapturedStep(pieces, size, disk, Joined(disk.local, disk.store) + Unlisted(disk.segments, Named(disk.local), disk.clock), Local(disk.tail.value));
        pieces, size := pieces + [Local(disk.tail.value)], size + |disk.tail.value|;
      }
    }

    // Open the archived parts, refusing one whose size is not the recorded one.
    method ResolveRemote(pieces: seq<Piece>, files: seq<Bytes>, openable: nat -> bool) returns (parts: seq<Source>, ok: bool)
      requires |files| == |pieces|
      ensures ok <==> Available(pieces, disk.store) && CanOpen(pieces, openable)
      ensures ok ==> Opened(pieces, files, disk.store, parts)
    {
      parts, ok := [], true;
      for i := 0 to |pieces|
        invariant |parts| == i && forall j :: 0 <= j < i ==> parts[j] == Open(pieces[j], files[j], disk.store)
        invariant forall j :: 0 <= j < i && pieces[j].Remote? ==>
          openable(j) && pieces[j].name in disk.store && |disk.store[pieces[j].name]| == pieces[j].size
      {
        if pieces[i].Remote? {
          if !openable(i) || pieces[i].name !in disk.store || |disk.store[pieces[i].name]| != pieces[i].size { return parts, false; }
        }
        parts := parts + [Open(pieces[i], files[i], disk.store)];
      }
    }

    /** A snapshot of any earlier moment, opened and read now, however often the log was
        archived and appended to in between: opening can fail only by an input or output
        error, and the bytes delivered are those of the log at that moment. */
    method ReadSnapshot(pieces: seq<Piece>, files: seq<Bytes>, data: array<byte>, offset: int, openable: nat -> bool, healthy: Health, ghost at: nat)
      returns (read: nat, error: ReadError)
      requires Sound() && at < |trace| && Snapshot(pieces, trace[at]) && Grown(pieces, files)
      modifies data
      ensures !CanOpen(pieces, openable) ==> read == 0 && error == IoError && data[..] == old(data[..])
      ensures CanOpen(pieces, openable) ==>
        && read <= data.Length && (forall k :: read <= k < data.Length ==> data[k] == old(data[k]))
        && (error == NegativeOffset <==> offset < 0)
        && (read > 0 ==> 0 <= offset && offset + read <= |trace[at].log| && data[..read] == trace[at].log[offset..offset + read])
        && (error == NoError ==> read == data.Length)
        && (error == EndOfFile ==> read < data.Length && read == MaxInt(|trace[at].log| - offset, 0))
        && (error == IoError ==> read < data.Length && exists i, k :: !healthy(i, k))
        && (offset >= 0 && error != IoError ==>
              (read == MinInt(data.Length, MaxInt(|trace[at].log| - offset, 0)) && error == if read < data.Length then EndOfFile else NoError))
    {
      hide Intact, Content, Total, Snapshot, Opened;
      LastPersists(trace, at);
      SnapshotLasts(pieces, trace[at], disk);
      var parts, ok := ResolveRemote(pieces, files, openable);
      if !ok { return 0, IoError; }
      OpenedReads(pieces, files, disk.store, parts);
      read, error := ReadAt(parts, data, offset, healthy);
    }
  }

  // `pieces` read as `content` and need nothing the archive might give up.
  ghost predicate Captured(pieces: seq<Piece>, size: nat, d: Disk, content: Bytes) {
    Resolved(pieces, d.store) == content && size == |content| && Held(pieces, d)
  }

  lemma NothingCaptured(d: Disk)
    ensures Captured([], 0, d, Joined(d.local[..0], d.store))
  {
  }

  // One archived part, still local or not.
  lemma ArchivedStep(pieces: seq<Piece>, size: nat, d: Disk, i: nat)
    requires i < |d.local| && Stored(d.local[i], d) && Captured(pieces, size, d, Joined(d.local[..i], d.store))
    ensures var p := d.local[i];
      var piece := if p.segment in d.segments then Local(d.segments[p.segment]) else Remote(p.name, p.size);
      Captured(pieces + [piece], size + p.size, d, Joined(d.local[..i + 1], d.store))
  {
    hide Captured, Joined;
    var p := d.local[i];
    var piece := if p.segment in d.segments then Local(d.segments[p.segment]) else Remote(p.name, p.size);
    assert d.local[..i + 1] == d.local[..i] + [p];
    JoinedStep(d.local[..i], p, d.store);
    CapturedStep(pieces, size, d, Joined(d.local[..i], d.store), piece);
  }

  lemma CapturedStep(pieces: seq<Piece>, size: nat, d: Disk, content: Bytes, p: Piece)
    requires Captured(pieces, size, d, content)
    requires p.Remote? ==> exists q :: q in d.local && q.name == p.name && q.size == p.size
    ensures Captured(pieces + [p], size + |Resolve(p, d.store)|, d, content + Resolve(p, d.store))
  {
    ResolvedStep(pieces, p, d.store);
  }

  lemma SealFields(d: Disk, now: nat)
    requires d.tail.Some?
    ensures Seal(d, now) == d.(tail := None, segments := d.segments[now := d.tail.value], clock := now + 1)
  {
  }

  lemma PlaceKeeps(d: Disk, log: Bytes, place: Place)
    requires Intact(d, log)
    requires (d.place == Nowhere && place == Incoming) || (d.place == Incoming && place == Published)
    ensures Intact(d.(place := place), log) && Persists(d, d.(place := place))
  {
    var e := d.(place := place);
    LocalStored(d);
    forall p | p in d.remote ensures Stored(p, e) { assert Stored(p, d); }
    PublishableAgrees(d, e, d.remote);
  }

  lemma ViewUnsealed(d: Disk)
    requires d.segments.Keys == {}
    ensures View(d) == Joined(d.local, d.store) + Tail(d.tail)
  {
    hide Joined, Tail;
    UnlistedNone(d.segments, Named(d.local), d.clock);
    assert Joined(d.local, d.store) + [] == Joined(d.local, d.store);
  }

  // In name order, the segments that the local manifest does not name.
  ghost predicate Pending(uploads: seq<nat>, d: Disk) {
    Ascending(uploads) && forall n :: n in uploads <==> n in d.segments && n !in Named(d.local)
  }

  ghost predicate Covered(uploads: seq<nat>, i: nat, m: seq<Part>) {
    i <= |uploads| && forall j :: 0 <= j < i ==> uploads[j] in Named(m)
  }

  lemma TailIsIrrelevant(m: seq<Part>, d: Disk, e: Disk)
    requires Publishable(m, d) && e == d.(tail := e.tail)
    ensures Publishable(m, e)
  {
    hide Lists;
    forall p | p in m ensures Stored(p, e) { assert Stored(p, d); }
    PublishableAgrees(d, e, m);
  }

  method Find(manifest: seq<Part>, n: nat) returns (part: Part)
    requires n in Named(manifest)
    ensures part in manifest && part.segment == n
  {
    for i := 0 to |manifest|
      invariant forall j :: 0 <= j < i ==> manifest[j].segment != n
    {
      if manifest[i].segment == n { return manifest[i]; }
    }
    assert false;
  }

  ghost predicate Ascending(names: seq<nat>) { forall i, j :: 0 <= i < j < |names| ==> names[i] < names[j] }

  function Longer(names: seq<nat>, n: nat): (r: seq<nat>)
    requires Ascending(names) && forall m :: m in names ==> m < n
    ensures Ascending(r) && forall m :: m in r <==> m in names || m == n
  {
    assert forall i :: 0 <= i < |names| ==> names[i] in names;
    names + [n]
  }

  lemma PublishedIsSame(m: seq<Part>, d: Disk, p: Part)
    requires Publishable(m, d) && p in m && p.segment in d.segments
    ensures d.segments[p.segment] == p.digest
  {
    assert Stored(p, d);
  }

  // No published object is ever overwritten.
  lemma NameIsFree(m: seq<Part>, d: Disk, n: nat)
    requires Publishable(m, d) && n !in Named(m)
    ensures forall p :: p in m ==> p.name != if m == [] then Logical else Sealed(n)
  {
    forall p | p in m ensures p.name != Sealed(n) {
      assert Stored(p, d) && p.segment in Named(m);
    }
  }

  // Uploading in name order continues the list of local segments.
  lemma NextUpload(m: seq<Part>, d: Disk, uploads: seq<nat>, i: nat)
    requires Publishable(m, d) && Pending(uploads, d) && i < |uploads| && uploads[i] !in Named(m) && Covered(uploads, i, m)
    ensures Next(d.segments, Named(d.local) + Named(m[|d.local|..]), uploads[i])
  {
    hide Lists;
    NamedConcat(d.local, m[|d.local|..]);
    assert m == d.local + m[|d.local|..];
    forall n | n in d.segments && n !in Named(m) ensures uploads[i] <= n {
      assert n in uploads;
      var j :| 0 <= j < |uploads| && uploads[j] == n;
    }
  }

  lemma ManifestGrows(m: seq<Part>, d: Disk, part: Part)
    requires Publishable(m, d) && Stored(part, d) && forall p :: p in m ==> p.name != part.name
    requires Next(d.segments, Named(d.local) + Named(m[|d.local|..]), part.segment)
    ensures Publishable(m + [part], d)
  {
    var k := |d.local|;
    assert (m + [part])[k..] == m[k..] + [part];
    assert (m[k..] + [part])[..|m[k..]|] == m[k..];
  }

  lemma AllUploaded(m: seq<Part>, d: Disk, uploads: seq<nat>)
    requires Publishable(m, d) && Pending(uploads, d) && Covered(uploads, |uploads|, m)
    ensures d.segments.Keys <= Named(m)
  {
    hide Lists;
    NamedConcat(d.local, m[|d.local|..]);
    assert m == d.local + m[|d.local|..];
    forall n | n in d.segments ensures n in Named(m) {
      if n !in Named(d.local) { assert n in uploads; }
    }
  }

  // ----------------------------------------------------------- joined reads

  datatype ReadError = NoError | EndOfFile | NegativeOffset | UnexpectedEnd | IoError

  // Which bytes of which part can be read.
  type Health = (nat, nat) -> bool

  // Reading one file: fewer bytes than asked for come with an error, and the end of the
  // file is only reported there.
  method ReadFile(content: Bytes, at: nat, data: array<byte>, from: nat, length: nat, part: nat, healthy: Health) returns (n: nat, error: ReadError)
    requires from + length <= data.Length
    modifies data
    ensures n <= length && (n == 0 || at + n <= |content|) && error in {NoError, EndOfFile, IoError}
    ensures forall k :: from <= k < from + n ==> data[k] == content[at + (k - from)]
    ensures forall k :: 0 <= k < data.Length && !(from <= k < from + n) ==> data[k] == old(data[k])
    ensures n < length ==> error != NoError && (error == EndOfFile ==> at + n >= |content|)
    ensures error == IoError ==> n < length && at + n < |content| && !healthy(part, at + n)
    ensures error == NoError ==> n == length
    ensures error == EndOfFile ==> n < length
  {
    n := 0;
    while n < length && at + n < |content|
      invariant n <= length && (n == 0 || at + n <= |content|)
      invariant forall k :: from <= k < from + n ==> data[k] == content[at + (k - from)]
      invariant forall k :: 0 <= k < data.Length && !(from <= k < from + n) ==> data[k] == old(data[k])
    {
      if !healthy(part, at + n) { return n, IoError; }
      data[from + n] := content[at + n];
      n := n + 1;
    }
    error := if n < length then EndOfFile else NoError;
  }

  // The byte at a position of the joined parts is one that cannot be read.
  ghost predicate Unreadable(parts: seq<Source>, position: nat, healthy: Health) {
    exists i: nat, k: nat :: i < |parts| && k < parts[i].size && Total(parts[..i]) + k == position && !healthy(i, k)
  }

  /** Fill a buffer from the joined parts at an offset: the bytes delivered are exactly the
      logical log's, as many as fit or exist unless a byte cannot be read, and end of file is
      reported precisely when fewer than asked for were left. */
  method ReadAt(parts: seq<Source>, data: array<byte>, offset: int, healthy: Health) returns (read: nat, error: ReadError)
    modifies data
    ensures read <= data.Length && forall k :: read <= k < data.Length ==> data[k] == old(data[k])
    ensures error == NegativeOffset <==> offset < 0
    ensures Whole(parts) && read > 0 ==>
      0 <= offset && offset + read <= Total(parts) && data[..read] == Content(parts)[offset..offset + read]
    ensures error == NoError ==> read == data.Length
    ensures Whole(parts) && error == EndOfFile ==> read < data.Length && read == MaxInt(Total(parts) - offset, 0)
    ensures error != UnexpectedEnd
    ensures Whole(parts) && error == IoError ==> read < data.Length && Unreadable(parts, offset + read, healthy)
    ensures Whole(parts) && offset >= 0 && error != IoError ==>
      read == MinInt(data.Length, MaxInt(Total(parts) - offset, 0)) && error == if read < data.Length then EndOfFile else NoError
  {
    hide Whole, Content, Total, Progress, Unreadable;
    read, error := 0, NegativeOffset;
    if offset < 0 { return; }
    if Whole(parts) { ReadNothing(parts, offset); }
    var at: nat := offset;
    assert data[..0] == [];
    for i := 0 to |parts|
      invariant read <= data.Length && (read == data.Length ==> read == 0)
      invariant forall k :: read <= k < data.Length ==> data[k] == old(data[k])
      invariant Whole(parts) ==> Progress(parts, i, data[..read], offset, at)
    {
      if at >= parts[i].size {
        if Whole(parts) { PartSkipped(parts, i, data[..read], offset, at); }
        at := at - parts[i].size;
        continue;
      }
      var length := MinInt(data.Length - read, parts[i].size - at);
      ghost var got := data[..read];
      if Whole(parts) { PartIsThere(parts, i); }
      var n, failure := ReadFile(parts[i].content, at, data, read, length, i, healthy);
      ghost var more := if n > 0 then parts[i].content[at..at + n] else [];
      assert data[..read + n] == got + more;
      if Whole(parts) {
        PartRead(parts, i, got, offset, at, n);
        if failure == IoError { PartFails(parts, i, got, offset, at, n, healthy); }
      }
      read := read + n;
      if failure != NoError && !(failure == EndOfFile && n == length) { return read, failure; }
      if n != length { return read, UnexpectedEnd; }
      at := 0;
      if read == data.Length {
        return read, NoError;
      }
    }
    if Whole(parts) { AllRead(parts, data[..read], offset, at); }
    error := if read < data.Length then EndOfFile else NoError;
  }

  // Before part i: `at` bytes are left to skip, or everything from `offset` to here was read.
  ghost predicate Progress(parts: seq<Source>, i: nat, got: Bytes, offset: nat, at: nat)
    requires i <= |parts| && Whole(parts)
  {
    && offset + |got| == Total(parts[..i]) + at
    && (got != [] ==> at == 0) && Got(parts, got, offset)
  }

  ghost predicate Got(parts: seq<Source>, got: Bytes, offset: nat)
    requires Whole(parts)
  {
    got != [] ==> offset + |got| <= Total(parts) && got == Content(parts)[offset..offset + |got|]
  }

  lemma ReadNothing(parts: seq<Source>, offset: nat)
    requires Whole(parts)
    ensures Progress(parts, 0, [], offset, offset)
  {
    assert parts[..0] == [];
  }

  lemma PartIsThere(parts: seq<Source>, i: nat)
    requires Whole(parts) && i < |parts|
    ensures parts[i].size <= |parts[i].content|
  {
  }

  lemma PartSkipped(parts: seq<Source>, i: nat, got: Bytes, offset: nat, at: nat)
    requires Whole(parts) && i < |parts| && Progress(parts, i, got, offset, at) && at >= parts[i].size
    ensures Progress(parts, i + 1, got, offset, at - parts[i].size)
  {
    hide Content, Total;
    ContentAt(parts, i);
  }

  lemma PartRead(parts: seq<Source>, i: nat, got: Bytes, offset: nat, at: nat, n: nat)
    requires Whole(parts) && i < |parts| && Progress(parts, i, got, offset, at) && at + n <= parts[i].size <= |parts[i].content|
    ensures var now := got + if n > 0 then parts[i].content[at..at + n] else [];
      && Got(parts, now, offset)
      && (at < parts[i].size && at + n == parts[i].size ==> Progress(parts, i + 1, now, offset, 0))
  {
    hide Content, Total;
    ContentAt(parts, i);
    if n > 0 {
      var whole, start := Content(parts), Total(parts[..i]);
      Slice(whole, start, parts[i].size, at, n);
      PrefixSlice(parts[i].content, parts[i].size, at, n);
      if got != [] { SliceJoin(whole, offset, start, start + n); } else { assert [] + parts[i].content[at..at + n] == parts[i].content[at..at + n]; }
    } else {
      assert got + [] == got;
    }
  }

  lemma PartFails(parts: seq<Source>, i: nat, got: Bytes, offset: nat, at: nat, n: nat, healthy: Health)
    requires Whole(parts) && i < |parts| && Progress(parts, i, got, offset, at) && at + n < parts[i].size && !healthy(i, at + n)
    ensures Unreadable(parts, offset + |got| + n, healthy)
  {
    hide Content, Total;
    assert Total(parts[..i]) + (at + n) == offset + |got| + n;
  }

  lemma AllRead(parts: seq<Source>, got: Bytes, offset: nat, at: nat)
    requires Whole(parts) && Progress(parts, |parts|, got, offset, at)
    ensures Got(parts, got, offset) && |got| == MaxInt(Total(parts) - offset, 0)
  {
    hide Content, Total;
    assert parts[..|parts|] == parts;
  }

  lemma Slice(whole: Bytes, start: nat, size: nat, at: nat, n: nat)
    requires start + size <= |whole| && at + n <= size
    ensures whole[start..][..size][at..at + n] == whole[start + at..start + at + n]
  {
  }

  lemma PrefixSlice(part: Bytes, size: nat, at: nat, n: nat)
    requires at + n <= size <= |part|
    ensures part[..size][at..at + n] == part[at..at + n]
  {
  }

  lemma SliceJoin(whole: Bytes, a: nat, b: nat, c: nat)
    requires a <= b <= c <= |whole|
    ensures whole[a..b] + whole[b..c] == whole[a..c]
  {
  }
}
