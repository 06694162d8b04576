/** Dashboard streaming: the Controller sends the difference between consecutive frames and
    the browser applies it to what it shows. Encoded rows and fields are compared as bytes,
    so they are represented by numbers.
 */
module Dashboard {
  import opened Model

  type Bytes = nat

  datatype Item = Item(id: ID, body: Bytes)

  datatype Frame = Frame(
    agents: seq<Item>, nodes: seq<Item>, experiments: seq<Item>,
    edges: Bytes, events: Bytes, metrics: Bytes, generatedAt: Bytes)

  datatype Change = Change(upsert: seq<Item>, remove: seq<ID>, order: Option<seq<ID>>)

  datatype Patch = Patch(
    agents: Option<Change>, nodes: Option<Change>, experiments: Option<Change>,
    edges: Option<Bytes>, events: Option<Bytes>, metrics: Option<Bytes>, generatedAt: Bytes)

  ghost predicate UniqueIds(rows: seq<Item>) { forall i, j :: 0 <= i < j < |rows| ==> rows[i].id != rows[j].id }

  function Ids(rows: seq<Item>): seq<ID> { seq(|rows|, i requires 0 <= i < |rows| => rows[i].id) }

  // -------------------------------------------------------- the browser's map

  // An insertion-ordered map from id to row is the sequence of its rows.
  function Lookup(m: seq<Item>, id: ID): Option<Item> {
    if m == [] then None
    else if m[|m| - 1].id == id then Some(m[|m| - 1])
    else Lookup(m[..|m| - 1], id)
  }

  // A known id keeps its place, a new one goes last.
  function Put(m: seq<Item>, item: Item): seq<Item> {
    if m == [] then [item]
    else if m[|m| - 1].id == item.id then m[..|m| - 1] + [item]
    else if Lookup(m[..|m| - 1], item.id).Some? then Put(m[..|m| - 1], item) + [m[|m| - 1]]
    else m + [item]
  }

  function PutAll(m: seq<Item>, items: seq<Item>): seq<Item> {
    if items == [] then m else Put(PutAll(m, items[..|items| - 1]), items[|items| - 1])
  }

  function Without(m: seq<Item>, ids: seq<ID>): seq<Item> {
    if m == [] then []
    else Without(m[..|m| - 1], ids) + if m[|m| - 1].id in ids then [] else [m[|m| - 1]]
  }

  // Rows in the given order; an unknown id is an error that reconnects the stream.
  function Reorder(m: seq<Item>, order: seq<ID>): Option<seq<Item>> {
    if order == [] then Some([])
    else
      var rest, last := Reorder(m, order[..|order| - 1]), Lookup(m, order[|order| - 1]);
      if rest.Some? && last.Some? then Some(rest.value + [last.value]) else None
  }

  function ApplyChange(rows: seq<Item>, change: Option<Change>): Option<seq<Item>> {
    if change.None? then Some(rows)
    else
      var items := PutAll(Without(PutAll([], rows), change.value.remove), change.value.upsert);
      if change.value.order.Some? then Reorder(items, change.value.order.value) else Some(items)
  }

  function Replaced(was: Bytes, now: Option<Bytes>): Bytes { if now.Some? then now.value else was }

  function Apply(frame: Frame, patch: Option<Patch>): Option<Frame> {
    if patch.None? then Some(frame)
    else
      var p := patch.value;
      var agents, nodes, experiments := ApplyChange(frame.agents, p.agents), ApplyChange(frame.nodes, p.nodes), ApplyChange(frame.experiments, p.experiments);
      if agents.None? || nodes.None? || experiments.None? then None
      else Some(Frame(agents.value, nodes.value, experiments.value,
                      Replaced(frame.edges, p.edges), Replaced(frame.events, p.events), Replaced(frame.metrics, p.metrics), p.generatedAt))
  }

  // -------------------------------------------------------------- lookups

  lemma {:induction false} LookupIs(m: seq<Item>, id: ID)
    ensures Lookup(m, id).Some? ==> Lookup(m, id).value in m && Lookup(m, id).value.id == id
    ensures Lookup(m, id).None? <==> forall x :: x in m ==> x.id != id
  {
    if m != [] {
      LookupIs(m[..|m| - 1], id);
      assert m == m[..|m| - 1] + [m[|m| - 1]];
    }
  }

  lemma {:induction false} LookupUnique(m: seq<Item>, x: Item)
    requires UniqueIds(m) && x in m
    ensures Lookup(m, x.id) == Some(x)
  {
    var n := |m| - 1;
    if m[n] != x {
      assert m == m[..n] + [m[n]];
      LookupUnique(m[..n], x);
    }
  }

  lemma {:induction false} PutIs(m: seq<Item>, item: Item, id: ID)
    ensures Lookup(Put(m, item), id) == if id == item.id then Some(item) else Lookup(m, id)
    ensures Lookup(m, item.id).Some? ==> Ids(Put(m, item)) == Ids(m)
    ensures Lookup(m, item.id).None? ==> Put(m, item) == m + [item]
  {
    if m != [] {
      var n := |m| - 1;
      var p := Put(m, item);
      if m[n].id == item.id {
        assert p[..|p| - 1] == m[..n];
      } else {
        PutIs(m[..n], item, id);
        if Lookup(m[..n], item.id).Some? {
          assert p[..|p| - 1] == Put(m[..n], item) && |Put(m[..n], item)| == |Ids(m[..n])|;
          assert Ids(m) == Ids(m[..n]) + [m[n].id];
        } else {
          assert p[..|p| - 1] == m;
        }
      }
    } else {
      assert Put(m, item)[..0] == [];
    }
  }

  lemma {:induction false} PutAllIs(m: seq<Item>, items: seq<Item>, id: ID)
    ensures Lookup(PutAll(m, items), id) == if Lookup(items, id).Some? then Lookup(items, id) else Lookup(m, id)
  {
    if items != [] {
      PutAllIs(m, items[..|items| - 1], id);
      PutIs(PutAll(m, items[..|items| - 1]), items[|items| - 1], id);
    }
  }

  // Rewriting known rows keeps the order.
  lemma {:induction false} PutAllKeepsOrder(m: seq<Item>, items: seq<Item>)
    requires forall x :: x in items ==> Lookup(m, x.id).Some?
    ensures Ids(PutAll(m, items)) == Ids(m)
  {
    if items != [] {
      var before, last := items[..|items| - 1], items[|items| - 1];
      assert last in items;
      PutAllKeepsOrder(m, before);
      PutAllIs(m, before, last.id);
      PutIs(PutAll(m, before), last, last.id);
    }
  }

  // Unique rows are their own map.
  lemma {:induction false} FromUnique(rows: seq<Item>)
    requires UniqueIds(rows)
    ensures PutAll([], rows) == rows
  {
    if rows != [] {
      var n := |rows| - 1;
      FromUnique(rows[..n]);
      LookupIs(rows[..n], rows[n].id);
      PutIs(rows[..n], rows[n], rows[n].id);
      assert rows == rows[..n] + [rows[n]];
    }
  }

  lemma {:induction false} WithoutIs(m: seq<Item>, ids: seq<ID>, id: ID)
    ensures Lookup(Without(m, ids), id) == if id in ids then None else Lookup(m, id)
  {
    if m != [] {
      var n := |m| - 1;
      WithoutIs(m[..n], ids, id);
      var w := Without(m, ids);
      if m[n].id !in ids { assert w[..|w| - 1] == Without(m[..n], ids); } else { assert w == Without(m[..n], ids); }
    }
  }

  lemma {:induction false} WithoutNothing(m: seq<Item>, ids: seq<ID>)
    requires forall id :: id !in ids
    ensures Without(m, ids) == m
  {
    if m != [] { WithoutNothing(m[..|m| - 1], ids); }
  }

  lemma {:induction false} ReorderIs(m: seq<Item>, rows: seq<Item>)
    requires forall x :: x in rows ==> Lookup(m, x.id) == Some(x)
    ensures Reorder(m, Ids(rows)) == Some(rows)
  {
    if rows != [] {
      var n := |rows| - 1;
      assert Ids(rows)[..n] == Ids(rows[..n]) && rows[n] in rows;
      ReorderIs(m, rows[..n]);
      assert rows == rows[..n] + [rows[n]];
    }
  }

  // ------------------------------------------------------- the Controller

  // What a change must achieve.
  ghost predicate Leads(was: seq<Item>, change: Option<Change>, now: seq<Item>) {
    && (UniqueIds(was) && UniqueIds(now) ==> ApplyChange(was, change) == Some(now) && (change.None? <==> was == now))
    && (was == now ==> change.None?)
  }

  // A change carries no more than it must: every row that is new or different once, every id
  // that is gone once, and the ids in order only if the order is not the same.
  ghost predicate Minimal(was: seq<Item>, change: Option<Change>, now: seq<Item>) {
    change.Some? && UniqueIds(was) && UniqueIds(now) ==>
      && UniqueIds(change.value.upsert) && (forall x :: x in change.value.upsert <==> x in now && x !in was)
      && Distinct(change.value.remove)
      && (forall id :: id in change.value.remove <==> (exists x :: x in was && x.id == id) && forall x :: x in now ==> x.id != id)
      && (change.value.order.None? <==> |was| == |now| && forall i :: 0 <= i < |now| ==> was[i].id == now[i].id)
      && (change.value.order.Some? ==> (|change.value.order.value| == |now|
                                        && forall i :: 0 <= i < |now| ==> change.value.order.value[i] == now[i].id))
  }

  ghost predicate Distinct(ids: seq<ID>) { forall i, j :: 0 <= i < j < |ids| ==> ids[i] != ids[j] }

  // Rows whose id is new or whose bytes changed.
  ghost predicate Upserts(was: seq<Item>, now: seq<Item>, upsert: seq<Item>) {
    forall x :: x in upsert <==> x in now && Lookup(now, x.id) == Some(x) && Lookup(was, x.id) != Some(x)
  }

  ghost predicate Removes(was: seq<Item>, now: seq<Item>, remove: seq<ID>) {
    forall id :: id in remove <==> id in Ids(was) && Lookup(now, id).None?
  }

  lemma ChangeLeads(was: seq<Item>, now: seq<Item>, upsert: seq<Item>, remove: seq<ID>, sameOrder: bool)
    requires UniqueIds(was) && UniqueIds(now) && Upserts(was, now, upsert) && Removes(was, now, remove)
    requires sameOrder <==> Ids(was) == Ids(now)
    ensures ApplyChange(was, Some(Change(upsert, remove, if sameOrder then None else Some(Ids(now))))) == Some(now)
    ensures upsert == [] && remove == [] && sameOrder ==> was == now
  {
    FromUnique(was);
    var kept := Without(was, remove);
    var items := PutAll(kept, upsert);
    forall x | x in now ensures Lookup(items, x.id) == Some(x) { RowArrives(was, now, upsert, remove, x); }
    if sameOrder {
      SameOrderKeepsAll(was, now, remove);
      forall x | x in upsert ensures Lookup(was, x.id).Some? { InOrder(was, now, x); }
      WithoutNothing(was, remove);
      PutAllKeepsOrder(was, upsert);
      SameRows(items, now);
    } else {
      ReorderIs(items, now);
    }
  }

  lemma RowArrives(was: seq<Item>, now: seq<Item>, upsert: seq<Item>, remove: seq<ID>, x: Item)
    requires UniqueIds(now) && Upserts(was, now, upsert) && Removes(was, now, remove) && x in now
    ensures Lookup(PutAll(Without(was, remove), upsert), x.id) == Some(x)
  {
    PutAllIs(Without(was, remove), upsert, x.id);
    WithoutIs(was, remove, x.id);
    LookupIs(upsert, x.id);
    LookupUnique(now, x);
    if Lookup(upsert, x.id).Some? { LookupUnique(now, Lookup(upsert, x.id).value); }
  }

  lemma SameOrderKeepsAll(was: seq<Item>, now: seq<Item>, remove: seq<ID>)
    requires Ids(was) == Ids(now) && Removes(was, now, remove)
    ensures forall id :: id !in remove
  {
    forall id | id in Ids(was) ensures Lookup(now, id).Some? {
      var i :| 0 <= i < |was| && Ids(was)[i] == id;
      assert Ids(now)[i] == id && now[i] in now;
      LookupIs(now, id);
    }
  }

  lemma InOrder(was: seq<Item>, now: seq<Item>, x: Item)
    requires Ids(was) == Ids(now) && x in now
    ensures Lookup(was, x.id).Some?
  {
    var i :| 0 <= i < |now| && now[i] == x;
    assert Ids(was)[i] == Ids(now)[i] && was[i] in was;
    LookupIs(was, x.id);
  }

  lemma SameRows(items: seq<Item>, now: seq<Item>)
    requires Ids(items) == Ids(now) && UniqueIds(now) && forall x :: x in now ==> Lookup(items, x.id) == Some(x)
    ensures items == now
  {
    assert |items| == |Ids(items)| == |Ids(now)| == |now|;
    forall i | 0 <= i < |now| ensures items[i].id == now[i].id { assert Ids(items)[i] == Ids(now)[i]; }
    forall i | 0 <= i < |now| ensures items[i] == now[i] {
      LookupUnique(items, items[i]);
      assert now[i] in now;
    }
  }

  // What the first i rows of the current version add to a change, over unique rows.
  ghost predicate UpsertsUpTo(was: seq<Item>, now: seq<Item>, i: nat, upsert: seq<Item>)
    requires i <= |now|
  {
    && UniqueIds(upsert)
    && forall x :: x in upsert <==> x in now[..i] && Lookup(was, x.id) != Some(x)
  }

  ghost predicate RemovesUpTo(was: seq<Item>, now: seq<Item>, i: nat, remove: seq<ID>)
    requires i <= |was|
  {
    && (UniqueIds(was) ==> Distinct(remove))
    && forall id :: id in remove <==> id in Ids(was)[..i] && Lookup(now, id).None?
  }

  lemma StartsEmpty(was: seq<Item>, now: seq<Item>)
    ensures UpsertsUpTo(was, now, 0, []) && RemovesUpTo(was, now, 0, [])
  {
  }

  lemma UpsertNext(was: seq<Item>, now: seq<Item>, i: nat, upsert: seq<Item>)
    requires i < |now| && UniqueIds(now) && UpsertsUpTo(was, now, i, upsert)
    ensures UpsertsUpTo(was, now, i + 1, if Lookup(was, now[i].id) != Some(now[i]) then upsert + [now[i]] else upsert)
  {
    assert now[..i + 1] == now[..i] + [now[i]];
    forall x | x in upsert ensures x.id != now[i].id {
      var k :| 0 <= k < i && now[k] == x;
    }
  }

  lemma RemoveNext(was: seq<Item>, now: seq<Item>, i: nat, remove: seq<ID>)
    requires i < |was| && RemovesUpTo(was, now, i, remove)
    ensures RemovesUpTo(was, now, i + 1, if Lookup(now, was[i].id).None? then remove + [was[i].id] else remove)
  {
    assert Ids(was)[..i + 1] == Ids(was)[..i] + [was[i].id];
    if UniqueIds(was) {
      forall id | id in remove ensures id != was[i].id {
        var k :| 0 <= k < i && Ids(was)[k] == id;
      }
    }
  }

  lemma IsMinimal(was: seq<Item>, now: seq<Item>, upsert: seq<Item>, remove: seq<ID>, sameOrder: bool)
    requires UniqueIds(was) && UniqueIds(now)
    requires UpsertsUpTo(was, now, |now|, upsert) && RemovesUpTo(was, now, |was|, remove) && (sameOrder <==> Ids(was) == Ids(now))
    ensures Minimal(was, Some(Change(upsert, remove, if sameOrder then None else Some(Ids(now)))), now)
  {
    assert now[..|now|] == now && Ids(was)[..|was|] == Ids(was);
    forall x | x in now ensures x in was <==> Lookup(was, x.id) == Some(x) {
      LookupIs(was, x.id);
      if x in was { LookupUnique(was, x); }
    }
    forall id ensures id in remove <==> (exists x :: x in was && x.id == id) && forall x :: x in now ==> x.id != id {
      LookupIs(now, id);
      if id in Ids(was) {
        var i :| 0 <= i < |was| && Ids(was)[i] == id;
        assert was[i] in was;
      }
      if exists x :: x in was && x.id == id {
        var i :| 0 <= i < |was| && was[i].id == id;
        assert Ids(was)[i] == id;
      }
    }
    if forall i :: 0 <= i < |now| ==> |was| == |now| && was[i].id == now[i].id {
      assert |was| == |now| ==> Ids(was) == Ids(now);
    }
    if Ids(was) == Ids(now) {
      assert |was| == |Ids(was)| == |now|;
      forall i | 0 <= i < |now| ensures was[i].id == now[i].id { assert Ids(was)[i] == Ids(now)[i]; }
    }
  }

  lemma IsChange(was: seq<Item>, now: seq<Item>, upsert: seq<Item>, remove: seq<ID>, sameOrder: bool)
    requires UniqueIds(was) && UniqueIds(now) ==> UpsertsUpTo(was, now, |now|, upsert)
    requires RemovesUpTo(was, now, |was|, remove) && (sameOrder <==> Ids(was) == Ids(now)) && was != now
    ensures var change := if upsert == [] && remove == [] && sameOrder then None
                          else Some(Change(upsert, remove, if sameOrder then None else Some(Ids(now))));
      Leads(was, change, now) && Minimal(was, change, now)
  {
    if UniqueIds(was) && UniqueIds(now) {
      IsMinimal(was, now, upsert, remove, sameOrder);
      assert now[..|now|] == now && Ids(was)[..|was|] == Ids(was);
      forall x | x in now ensures Lookup(now, x.id) == Some(x) { LookupUnique(now, x); }
      ChangeLeads(was, now, upsert, remove, sameOrder);
    }
  }

  // The difference of one collection.
  method DiffRows(was: seq<Item>, now: seq<Item>) returns (change: Option<Change>)
    ensures Leads(was, change, now) && Minimal(was, change, now)
  {
    if was == now {
      return None;
    }
    hide Minimal, Leads, UpsertsUpTo, RemovesUpTo, Lookup, UniqueIds;
    ghost var unique := UniqueIds(was) && UniqueIds(now);
    var upsert, remove := [], [];
    StartsEmpty(was, now);
    for i := 0 to |now|
      invariant unique ==> UpsertsUpTo(was, now, i, upsert)
    {
      var row := Lookup(now, now[i].id);
      LookupIs(now, now[i].id);
      if unique {
        LookupUnique(now, now[i]);
        UpsertNext(was, now, i, upsert);
      }
      if Lookup(was, now[i].id) != row { upsert := upsert + [row.value]; }
    }
    for i := 0 to |was|
      invariant RemovesUpTo(was, now, i, remove)
    {
      RemoveNext(was, now, i, remove);
      if Lookup(now, was[i].id).None? { remove := remove + [was[i].id]; }
    }
    var sameOrder := |was| == |now|;
    if sameOrder {
      for i := 0 to |now|
        invariant forall j :: 0 <= j < i ==> now[j].id == was[j].id
      {
        if now[i].id != was[i].id { sameOrder := false; assert Ids(was)[i] != Ids(now)[i]; break; }
      }
    }
    assert sameOrder <==> Ids(was) == Ids(now);
    IsChange(was, now, upsert, remove, sameOrder);
    if upsert == [] && remove == [] && sameOrder { return None; }
    change := Some(Change(upsert, remove, if sameOrder then None else Some(Ids(now))));
  }

  ghost predicate UniqueFrame(f: Frame) { UniqueIds(f.agents) && UniqueIds(f.nodes) && UniqueIds(f.experiments) }

  // Equal up to the time they were generated.
  ghost predicate Agrees(a: Frame, b: Frame) { a.(generatedAt := b.generatedAt) == b }

  /** What a patch must achieve: the browser's frame becomes the current one, and there is no
      patch exactly when the frames already agree. */
  ghost predicate Patches(previous: Frame, patch: Option<Patch>, current: Frame) {
    UniqueFrame(previous) && UniqueFrame(current) ==>
      && (patch.None? <==> Agrees(previous, current))
      && (patch.Some? ==> Apply(previous, patch) == Some(current) && Carries(previous, patch.value, current))
  }

  // A patch holds a field only if it differs, in full for the small ones.
  ghost predicate Carries(previous: Frame, p: Patch, current: Frame) {
    && (p.agents.Some? <==> current.agents != previous.agents) && Minimal(previous.agents, p.agents, current.agents)
    && (p.nodes.Some? <==> current.nodes != previous.nodes) && Minimal(previous.nodes, p.nodes, current.nodes)
    && (p.experiments.Some? <==> current.experiments != previous.experiments)
    && Minimal(previous.experiments, p.experiments, current.experiments)
    && p.edges == (if current.edges != previous.edges then Some(current.edges) else None)
    && p.events == (if current.events != previous.events then Some(current.events) else None)
    && p.metrics == (if current.metrics != previous.metrics then Some(current.metrics) else None)
    && p.generatedAt == current.generatedAt
  }

  method Delta(current: Frame, previous: Frame) returns (patch: Option<Patch>)
    ensures Patches(previous, patch, current)
  {
    hide ApplyChange, UniqueIds, Minimal;
    var agents := DiffRows(previous.agents, current.agents);
    var nodes := DiffRows(previous.nodes, current.nodes);
    var experiments := DiffRows(previous.experiments, current.experiments);
    var edges := if current.edges != previous.edges then Some(current.edges) else None;
    var events := if current.events != previous.events then Some(current.events) else None;
    var metrics := if current.metrics != previous.metrics then Some(current.metrics) else None;
    if agents.None? && nodes.None? && experiments.None? && edges.None? && events.None? && metrics.None? { return None; }
    patch := Some(Patch(agents, nodes, experiments, edges, events, metrics, current.generatedAt));
  }

  // -------------------------------------------------------------- streaming

  // The browser's view after a chain of patches; an error leaves none.
  function Fold(first: Frame, patches: seq<Option<Patch>>): Option<Frame> {
    if patches == [] then Some(first)
    else
      var before := Fold(first, patches[..|patches| - 1]);
      if before.None? then None else Apply(before.value, patches[|patches| - 1])
  }

  /** Folding any chain of patches over the first frame gives the last frame: the browser
      never reconnects over a difference, and differs at most in the generation time. */
  lemma {:induction false} FoldFollows(frames: seq<Frame>, patches: seq<Option<Patch>>)
    requires |frames| == |patches| + 1 && forall f :: f in frames ==> UniqueFrame(f)
    requires forall i :: 0 <= i < |patches| ==> Patches(frames[i], patches[i], frames[i + 1])
    ensures Fold(frames[0], patches).Some? && Agrees(Fold(frames[0], patches).value, frames[|patches|])
    ensures patches != [] && patches[|patches| - 1].Some? ==> Fold(frames[0], patches) == Some(frames[|patches|])
  {
    if patches != [] {
      var n := |patches| - 1;
      FoldFollows(frames[..n + 1], patches[..n]);
      var shown := Fold(frames[0], patches[..n]).value;
      assert frames[..n + 1][n] == frames[n] && frames[n] in frames && frames[n + 1] in frames;
      assert Patches(frames[n], patches[n], frames[n + 1]);
      SameOnAgreeing(shown, frames[n], patches[n]);
    }
  }

  lemma SameOnAgreeing(a: Frame, b: Frame, patch: Option<Patch>)
    requires Agrees(a, b)
    ensures patch.Some? ==> Apply(a, patch) == Apply(b, patch)
  {
  }

  /** One connection: the first frame in full, then differences to its own last frame. */
  method Stream(frames: seq<Frame>) returns (patches: seq<Option<Patch>>)
    requires frames != []
    ensures |frames| == |patches| + 1 && forall i :: 0 <= i < |patches| ==> Patches(frames[i], patches[i], frames[i + 1])
    ensures (forall f :: f in frames ==> UniqueFrame(f)) ==>
      Fold(frames[0], patches).Some? && Agrees(Fold(frames[0], patches).value, frames[|frames| - 1])
  {
    hide Patches, UniqueFrame, Agrees;
    patches := [];
    for i := 1 to |frames|
      invariant |patches| == i - 1 && forall j :: 0 <= j < i - 1 ==> Patches(frames[j], patches[j], frames[j + 1])
    {
      var patch := Delta(frames[i], frames[i - 1]);
      patches := patches + [patch];
    }
    if forall f :: f in frames ==> UniqueFrame(f) { FoldFollows(frames, patches); }
  }
}
