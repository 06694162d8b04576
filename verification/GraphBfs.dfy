/** Shortest paths in an observed overlay graph: one breadth-first search per source gives
    distances, shortest-path predecessors and the number of shortest paths.
 */
module GraphBfs {
  import opened Model

  type Adjacency = seq<seq<nat>>

  ghost predicate Distinct<T(!new)>(s: seq<T>) { forall i, j :: 0 <= i < j < |s| ==> s[i] != s[j] }

  // Undirected, without self loops or repeated neighbours.
  ghost predicate Graph(adj: Adjacency) {
    forall v: nat :: v < |adj| ==> Distinct(adj[v]) && v !in adj[v] && forall w :: w in adj[v] ==> w < |adj| && v in adj[w]
  }

  // ---------------------------------------------------------- building

  predicate ValidEdge(n: nat, e: (int, int)) { 0 <= e.0 < n && 0 <= e.1 < n && e.0 != e.1 }

  ghost predicate Joins(edges: seq<(int, int)>, v: int, w: int) { (v, w) in edges || (w, v) in edges }

  ghost predicate Represents(adj: Adjacency, edges: seq<(int, int)>) {
    forall v: nat, w: nat :: v < |adj| && w < |adj| ==> (w in adj[v] <==> Joins(edges, v, w))
  }

  function Linked(adj: Adjacency, a: nat, b: nat): Adjacency
    requires a < |adj| && b < |adj|
  {
    var once := adj[a := adj[a] + [b]];
    once[b := once[b] + [a]]
  }

  lemma NoEdges(adj: Adjacency)
    requires forall v: nat :: v < |adj| ==> adj[v] == []
    ensures Graph(adj) && Represents(adj, []) && forall v, w :: !Joins([], v, w)
  {
  }

  lemma JoinsMore(edges: seq<(int, int)>, e: (int, int), v: int, w: int)
    ensures Joins(edges + [e], v, w) <==> Joins(edges, v, w) || e == (v, w) || e == (w, v)
  {
  }

  lemma EdgeAdded(adj: Adjacency, edges: seq<(int, int)>, e: (int, int), a: nat, b: nat)
    requires Graph(adj) && Represents(adj, edges) && ValidEdge(|adj|, e) && a == MinInt(e.0, e.1) && b == MaxInt(e.0, e.1)
    requires !Joins(edges, a, b)
    ensures Graph(Linked(adj, a, b)) && Represents(Linked(adj, a, b), edges + [e])
  {
    hide Joins;
    var after := Linked(adj, a, b);
    forall v: nat, w: nat | v < |adj| && w < |adj| ensures w in after[v] <==> w in adj[v] || (v == a && w == b) || (v == b && w == a) { }
    forall v: nat, w: nat | v < |adj| && w < |adj| ensures w in after[v] <==> Joins(edges + [e], v, w) { JoinsMore(edges, e, v, w); }
    assert b !in adj[a] && a !in adj[b];
  }

  lemma EdgeRepeated(adj: Adjacency, edges: seq<(int, int)>, e: (int, int), a: nat, b: nat)
    requires Represents(adj, edges) && a == MinInt(e.0, e.1) && b == MaxInt(e.0, e.1) && Joins(edges, a, b)
    ensures Represents(adj, edges + [e])
  {
    forall v: nat, w: nat | v < |adj| && w < |adj| ensures w in adj[v] <==> Joins(edges + [e], v, w) { JoinsMore(edges, e, v, w); }
  }

  /** The neighbour lists of the observed edges; a repeated edge counts once, and an edge
      outside the graph or from a node to itself refuses the whole input. */
  method BuildAdjacency(n: nat, edges: seq<(int, int)>) returns (adj: Adjacency, ok: bool)
    ensures ok <==> forall e :: e in edges ==> ValidEdge(n, e)
    ensures ok ==> |adj| == n && Graph(adj) && Represents(adj, edges)
  {
    hide Joins, Graph, Represents;
    adj := seq(n, i requires 0 <= i < n => []);
    NoEdges(adj);
    var known: set<(int, int)> := {};
    for i := 0 to |edges|
      invariant |adj| == n && Graph(adj) && Represents(adj, edges[..i])
      invariant forall e :: e in edges[..i] ==> ValidEdge(n, e)
      invariant forall a, b :: (a, b) in known <==> a < b && Joins(edges[..i], a, b)
    {
      var e := edges[i];
      if !ValidEdge(n, e) { return adj, false; }
      var a, b := MinInt(e.0, e.1), MaxInt(e.0, e.1);
      assert edges[..i + 1] == edges[..i] + [e];
      forall v, w ensures Joins(edges[..i + 1], v, w) <==> Joins(edges[..i], v, w) || e == (v, w) || e == (w, v) { JoinsMore(edges[..i], e, v, w); }
      if (a, b) !in known {
        EdgeAdded(adj, edges[..i], e, a, b);
        known := known + {(a, b)};
        adj := adj[a := adj[a] + [b]];
        adj := adj[b := adj[b] + [a]];
      } else {
        EdgeRepeated(adj, edges[..i], e, a, b);
      }
    }
    assert edges[..|edges|] == edges;
    ok := true;
  }

  // ------------------------------------------------------------- walks

  function Sum(ns: seq<nat>, f: nat -> nat): nat {
    if ns == [] then 0 else Sum(ns[..|ns| - 1], f) + f(ns[|ns| - 1])
  }

  // How many walks of length d lead from s to v.
  function Walks(adj: Adjacency, s: nat, v: nat, d: nat): nat
    decreases d
  {
    if d == 0 then (if v == s then 1 else 0)
    else if v < |adj| then Sum(adj[v], (u: nat) => Walks(adj, s, u, d - 1)) else 0
  }

  // The distance: some walk has this length and none is shorter.
  ghost predicate IsDistance(adj: Adjacency, s: nat, v: nat, d: nat) {
    Walks(adj, s, v, d) > 0 && forall e: nat :: e < d ==> Walks(adj, s, v, e) == 0
  }

  // The distance as a number, -1 for what cannot be reached.
  ghost function Level(adj: Adjacency, s: nat, v: nat): int {
    if exists d: nat :: IsDistance(adj, s, v, d) then (var d: nat :| IsDistance(adj, s, v, d); d) else -1
  }

  lemma LevelIs(adj: Adjacency, s: nat, v: nat, d: nat)
    requires IsDistance(adj, s, v, d)
    ensures Level(adj, s, v) == d
  {
    assert forall e: nat :: IsDistance(adj, s, v, e) ==> e == d;
  }

  lemma {:induction false} ReachableHasLevel(adj: Adjacency, s: nat, v: nat, d: nat)
    requires Walks(adj, s, v, d) > 0
    ensures 0 <= Level(adj, s, v) <= d && IsDistance(adj, s, v, Level(adj, s, v))
    decreases d
  {
    if e: nat :| e < d && Walks(adj, s, v, e) > 0 {
      ReachableHasLevel(adj, s, v, e);
    } else {
      assert IsDistance(adj, s, v, d);
      LevelIs(adj, s, v, d);
    }
  }

  lemma {:induction false} SumPositive(ns: seq<nat>, f: nat -> nat)
    ensures Sum(ns, f) > 0 <==> exists u :: u in ns && f(u) > 0
  {
    if ns != [] {
      SumPositive(ns[..|ns| - 1], f);
      assert ns == ns[..|ns| - 1] + [ns[|ns| - 1]];
    }
  }

  lemma {:induction false} SumAgrees(ns: seq<nat>, f: nat -> nat, g: nat -> nat)
    requires forall u :: u in ns ==> f(u) == g(u)
    ensures Sum(ns, f) == Sum(ns, g)
  {
    if ns != [] { SumAgrees(ns[..|ns| - 1], f, g); }
  }

  // Changing one term of a sum over distinct neighbours.
  lemma {:induction false} SumChanges(ns: seq<nat>, f: nat -> nat, g: nat -> nat, v: nat)
    requires Distinct(ns) && forall u :: u in ns && u != v ==> f(u) == g(u)
    ensures v in ns ==> Sum(ns, g) + f(v) == Sum(ns, f) + g(v)
    ensures v !in ns ==> Sum(ns, g) == Sum(ns, f)
  {
    if ns != [] {
      var n := |ns| - 1;
      assert ns == ns[..n] + [ns[n]];
      if ns[n] == v {
        assert v !in ns[..n];
        SumAgrees(ns[..n], f, g);
      } else {
        SumChanges(ns[..n], f, g, v);
      }
    }
  }

  // A walk to a neighbour of v extends to v.
  lemma StepReaches(adj: Adjacency, s: nat, u: nat, v: nat, d: nat)
    requires v < |adj| && u in adj[v] && Walks(adj, s, u, d) > 0
    ensures Walks(adj, s, v, d + 1) > 0
  {
    SumPositive(adj[v], (x: nat) => Walks(adj, s, x, d));
  }

  lemma StepComesFrom(adj: Adjacency, s: nat, v: nat, d: nat) returns (u: nat)
    requires Walks(adj, s, v, d + 1) > 0
    ensures v < |adj| && u in adj[v] && Walks(adj, s, u, d) > 0
  {
    SumPositive(adj[v], (x: nat) => Walks(adj, s, x, d));
    u :| u in adj[v] && Walks(adj, s, u, d) > 0;
  }

  // Neighbours' levels differ by at most one.
  lemma NeighbourLevel(adj: Adjacency, s: nat, u: nat, v: nat)
    requires v < |adj| && u in adj[v] && Level(adj, s, u) >= 0
    ensures 0 <= Level(adj, s, v) <= Level(adj, s, u) + 1
  {
    LevelExists(adj, s, u);
    StepReaches(adj, s, u, v, Level(adj, s, u));
    ReachableHasLevel(adj, s, v, Level(adj, s, u) + 1);
  }

  lemma LevelExists(adj: Adjacency, s: nat, v: nat)
    requires Level(adj, s, v) >= 0
    ensures IsDistance(adj, s, v, Level(adj, s, v))
  {
  }

  // ------------------------------------------------------------- the paths themselves

  // Vertex sequences from s to v along d edges.
  ghost predicate IsWalk(adj: Adjacency, s: nat, v: nat, d: nat, p: seq<nat>) {
    && |p| == d + 1 && p[0] == s && p[d] == v
    && forall i :: 0 < i <= d ==> p[i] < |adj| && p[i - 1] in adj[p[i]]
  }

  ghost function WalkSet(adj: Adjacency, s: nat, v: nat, d: nat): set<seq<nat>>
    decreases d
  {
    if d == 0 then (if v == s then {[s]} else {})
    else if v < |adj| then set u, p | u in adj[v] && p in WalkSet(adj, s, u, d - 1) :: p + [v] else {}
  }

  lemma {:induction false} WalkSetIs(adj: Adjacency, s: nat, v: nat, d: nat, p: seq<nat>)
    ensures p in WalkSet(adj, s, v, d) <==> IsWalk(adj, s, v, d, p)
    decreases d
  {
    if d > 0 {
      if p in WalkSet(adj, s, v, d) {
        var u, q :| u in adj[v] && q in WalkSet(adj, s, u, d - 1) && p == q + [v];
        WalkSetIs(adj, s, u, d - 1, q);
      }
      if IsWalk(adj, s, v, d, p) {
        var u, q := p[d - 1], p[..d];
        WalkSetIs(adj, s, u, d - 1, q);
        assert p == q + [v] && u in adj[v];
      }
    } else if IsWalk(adj, s, v, 0, p) {
      assert p == [s];
    }
  }

  // Vertex sequences that end in their own neighbour of v, each led on to v.
  ghost function LedOn(ns: seq<nat>, family: nat -> set<seq<nat>>, v: nat): set<seq<nat>> {
    set u, p | u in ns && p in family(u) :: p + [v]
  }

  predicate EndsAt(walks: set<seq<nat>>, u: nat) { forall p :: p in walks ==> p != [] && p[|p| - 1] == u }

  lemma {:induction false} LedOnCounted(ns: seq<nat>, family: nat -> set<seq<nat>>, v: nat)
    requires Distinct(ns) && forall u :: u in ns ==> EndsAt(family(u), u)
    ensures |LedOn(ns, family, v)| == Sum(ns, (u: nat) => |family(u)|)
  {
    if ns == [] {
      assert LedOn(ns, family, v) == {};
    } else {
      var before, u := ns[..|ns| - 1], ns[|ns| - 1];
      assert ns == before + [u];
      LedOnCounted(before, family, v);
      SumAgrees(before, (x: nat) => |family(x)|, (x: nat) => |family(x)|);
      AppendedSize(family(u), v);
      LedOnOne(before, family, v, u);
    }
  }

  // Walks through different neighbours are different.
  lemma LedOnOne(before: seq<nat>, family: nat -> set<seq<nat>>, v: nat, u: nat)
    requires u !in before && EndsAt(family(u), u) && forall x :: x in before ==> EndsAt(family(x), x)
    ensures var more := set p | p in family(u) :: p + [v];
      LedOn(before + [u], family, v) == LedOn(before, family, v) + more && LedOn(before, family, v) !! more
  {
    var more := set p | p in family(u) :: p + [v];
    forall q | q in LedOn(before, family, v) ensures q !in more {
      var x, p :| x in before && p in family(x) && q == p + [v];
      forall r | r in family(u) ensures r + [v] != q { assert (r + [v])[..|r|] == r && q[..|p|] == p; }
    }
  }

  lemma {:induction false} AppendedSize(walks: set<seq<nat>>, v: nat)
    ensures |set p | p in walks :: p + [v]| == |walks|
  {
    if walks != {} {
      var p :| p in walks;
      AppendedSize(walks - {p}, v);
      var rest := set q | q in walks - {p} :: q + [v];
      assert (set q | q in walks :: q + [v]) == rest + {p + [v]};
      forall q | q in walks - {p} ensures q + [v] != p + [v] { assert (q + [v])[..|q|] == q && (p + [v])[..|p|] == p; }
    }
  }

  /** The number of walks is the number of vertex sequences. */
  lemma {:induction false} WalksAreCounted(adj: Adjacency, s: nat, v: nat, d: nat)
    requires Graph(adj)
    ensures |WalkSet(adj, s, v, d)| == Walks(adj, s, v, d)
    decreases d
  {
    if d > 0 && v < |adj| {
      var family := (u: nat) => WalkSet(adj, s, u, d - 1);
      forall u | u in adj[v] ensures |family(u)| == Walks(adj, s, u, d - 1) && EndsAt(family(u), u) {
        WalksAreCounted(adj, s, u, d - 1);
        WalksEnd(adj, s, u, d - 1);
      }
      LedOnCounted(adj[v], family, v);
      SumAgrees(adj[v], (u: nat) => |family(u)|, (u: nat) => Walks(adj, s, u, d - 1));
      assert WalkSet(adj, s, v, d) == LedOn(adj[v], family, v);
    }
  }

  lemma WalksEnd(adj: Adjacency, s: nat, v: nat, d: nat)
    ensures EndsAt(WalkSet(adj, s, v, d), v)
  {
    forall p | p in WalkSet(adj, s, v, d) ensures p != [] && p[|p| - 1] == v { WalkSetIs(adj, s, v, d, p); }
  }

  // -------------------------------------------------------- the search

  ghost function SetOf(s: seq<nat>): set<nat> { set x | x in s }

  ghost predicate Precedes(adj: Adjacency, s: nat, u: nat, w: nat) { Level(adj, s, u) >= 0 && Level(adj, s, u) + 1 == Level(adj, s, w) }

  // What u contributes to the number of shortest paths to w, once their edge was followed.
  ghost function Share(adj: Adjacency, s: nat, u: nat, w: nat, followed: bool): nat {
    if followed && Precedes(adj, s, u, w) then Walks(adj, s, u, Level(adj, s, u)) else 0
  }

  // Edges followed so far: all from finished vertices, and those of v to `seen`.
  ghost predicate Followed(done: set<nat>, v: nat, seen: set<nat>, u: nat, w: nat) { u in done || (u == v && w in seen) }

  ghost function Shares(adj: Adjacency, s: nat, done: set<nat>, v: nat, seen: set<nat>, w: nat): nat
    requires w < |adj|
  {
    Sum(adj[w], (u: nat) => Share(adj, s, u, w, Followed(done, v, seen, u, w)))
  }

  // When every predecessor is finished the shares make up all shortest paths.
  lemma AllShares(adj: Adjacency, s: nat, done: set<nat>, v: nat, seen: set<nat>, w: nat)
    requires w < |adj| && Level(adj, s, w) > 0
    requires forall u :: u in adj[w] && Precedes(adj, s, u, w) ==> Followed(done, v, seen, u, w)
    ensures Shares(adj, s, done, v, seen, w) == Walks(adj, s, w, Level(adj, s, w))
  {
    var d: nat := Level(adj, s, w) - 1;
    LevelExists(adj, s, w);
    forall u | u in adj[w] ensures Share(adj, s, u, w, Followed(done, v, seen, u, w)) == Walks(adj, s, u, d) {
      if Level(adj, s, u) >= 0 { NeighbourLevel(adj, s, u, w); LevelExists(adj, s, u); }
      if Walks(adj, s, u, d) > 0 { ReachableHasLevel(adj, s, u, d); }
    }
    SumAgrees(adj[w], (u: nat) => Share(adj, s, u, w, Followed(done, v, seen, u, w)), (u: nat) => Walks(adj, s, u, d));
  }

  // Following the edge from v to w.
  lemma ShareStep(adj: Adjacency, s: nat, done: set<nat>, v: nat, seen: set<nat>, w: nat, x: nat)
    requires Graph(adj) && v < |adj| && w in adj[v] && w !in seen && v !in done && x < |adj|
    ensures Shares(adj, s, done, v, seen + {w}, x) ==
      Shares(adj, s, done, v, seen, x) + if x == w && Precedes(adj, s, v, w) then Walks(adj, s, v, Level(adj, s, v)) else 0
  {
    var f := (u: nat) => Share(adj, s, u, x, Followed(done, v, seen, u, x));
    var g := (u: nat) => Share(adj, s, u, x, Followed(done, v, seen + {w}, u, x));
    if x == w {
      SumChanges(adj[x], f, g, v);
    } else {
      SumAgrees(adj[x], f, g);
    }
  }

  // Finishing v: all its edges were followed.
  lemma ShareFinish(adj: Adjacency, s: nat, done: set<nat>, v: nat, seen: set<nat>, next: nat, w: nat)
    requires Graph(adj) && v < |adj| && w < |adj| && seen == SetOf(adj[v])
    ensures Shares(adj, s, done + {v}, next, {}, w) == Shares(adj, s, done, v, seen, w)
  {
    SumAgrees(adj[w], (u: nat) => Share(adj, s, u, w, Followed(done + {v}, next, {}, u, w)),
              (u: nat) => Share(adj, s, u, w, Followed(done, v, seen, u, w)));
  }

  // The queue holds the discovered vertices, by level, with their true levels.
  ghost predicate Queued(adj: Adjacency, s: nat, queue: seq<nat>, dist: seq<int>) {
    && |dist| == |adj| && Distinct(queue)
    && (forall v :: v in queue ==> v < |adj| && 0 <= dist[v] == Level(adj, s, v))
    && (forall v: nat :: v < |adj| && v !in queue ==> dist[v] == -1)
    && (forall i, j :: 0 <= i < j < |queue| ==> Level(adj, s, queue[i]) <= Level(adj, s, queue[j]))
    && s in queue
  }

  // Everything up to the level of the vertex at `head` is discovered.
  lemma {:induction false} LevelsComplete(adj: Adjacency, s: nat, queue: seq<nat>, dist: seq<int>, head: nat, v: nat, d: nat)
    requires Graph(adj) && s < |adj| && Queued(adj, s, queue, dist) && head < |queue|
    requires forall i, w :: 0 <= i < head && w in adj[queue[i]] ==> w in queue
    requires v < |adj| && Level(adj, s, v) == d && d <= Level(adj, s, queue[head])
    ensures v in queue
    decreases d
  {
    LevelExists(adj, s, v);
    if d > 0 {
      var u := StepComesFrom(adj, s, v, d - 1);
      ReachableHasLevel(adj, s, u, d - 1);
      NeighbourLevel(adj, s, u, v);
      LevelsComplete(adj, s, queue, dist, head, u, d - 1);
      var i :| 0 <= i < |queue| && queue[i] == u;
      assert i < head;
      assert v in adj[u];
    }
  }

  // What was found out about a vertex by following edges.
  ghost predicate Known(adj: Adjacency, s: nat, done: set<nat>, v: nat, seen: set<nat>, w: nat, sigma: nat, parents: seq<nat>)
    requires w < |adj|
  {
    && sigma == (if w == s then 1 else 0) + Shares(adj, s, done, v, seen, w)
    && Distinct(parents)
    && forall u :: u in parents <==> u in adj[w] && Followed(done, v, seen, u, w) && Precedes(adj, s, u, w)
  }

  lemma SourceLevel(adj: Adjacency, s: nat)
    ensures Level(adj, s, s) == 0
  {
    assert IsDistance(adj, s, s, 0);
    LevelIs(adj, s, s, 0);
  }

  // Nothing precedes the source.
  lemma SourceShares(adj: Adjacency, s: nat, done: set<nat>, v: nat, seen: set<nat>)
    requires s < |adj|
    ensures Shares(adj, s, done, v, seen, s) == 0
  {
    SourceLevel(adj, s);
    var f := (u: nat) => Share(adj, s, u, s, Followed(done, v, seen, u, s));
    SumPositive(adj[s], f);
  }

  // ------------------------------------------------------------- search state

  ghost function Done(queue: seq<nat>, head: nat): set<nat>
    requires head <= |queue|
  {
    SetOf(queue[..head])
  }

  // Edges of finished vertices lead to discovered ones, which are at most one level further.
  ghost predicate Frontier(adj: Adjacency, s: nat, queue: seq<nat>, head: nat) {
    && head <= |queue|
    && (forall i, w :: 0 <= i < head && queue[i] < |adj| && w in adj[queue[i]] ==> w in queue)
    && (head < |queue| ==> forall x :: x in queue ==> Level(adj, s, x) <= Level(adj, s, queue[head]) + 1)
  }

  ghost predicate AllKnown(adj: Adjacency, s: nat, done: set<nat>, v: nat, seen: set<nat>, sigma: seq<nat>, parents: seq<seq<nat>>) {
    && |sigma| == |parents| == |adj|
    && forall w: nat :: w < |adj| ==> Known(adj, s, done, v, seen, w, sigma[w], parents[w])
  }

  lemma HeadIsNotDone(queue: seq<nat>, head: nat)
    requires Distinct(queue) && head < |queue|
    ensures queue[head] !in Done(queue, head) && Done(queue, head + 1) == Done(queue, head) + {queue[head]}
  {
    assert queue[..head + 1] == queue[..head] + [queue[head]];
  }

  // The number of shortest paths to the vertex being finished is already complete.
  lemma HeadIsCounted(adj: Adjacency, s: nat, queue: seq<nat>, dist: seq<int>, head: nat, seen: set<nat>, sigma: nat, parents: seq<nat>)
    requires Graph(adj) && s < |adj| && Queued(adj, s, queue, dist) && Frontier(adj, s, queue, head) && head < |queue|
    requires Known(adj, s, Done(queue, head), queue[head], seen, queue[head], sigma, parents)
    ensures sigma == Walks(adj, s, queue[head], Level(adj, s, queue[head]))
  {
    var v := queue[head];
    assert v in queue;
    SourceLevel(adj, s);
    if v == s {
      SourceShares(adj, s, Done(queue, head), v, seen);
    } else {
      LevelExists(adj, s, v);
      assert Walks(adj, s, v, 0) == 0;
      forall u | u in adj[v] && Precedes(adj, s, u, v) ensures u in Done(queue, head) {
        LevelsComplete(adj, s, queue, dist, head, u, Level(adj, s, u));
        var i :| 0 <= i < |queue| && queue[i] == u;
        assert i < head && queue[..head][i] == u;
      }
      AllShares(adj, s, Done(queue, head), v, seen, v);
    }
  }

  // A neighbour seen for the first time is exactly one level further.
  lemma NewIsNext(adj: Adjacency, s: nat, queue: seq<nat>, dist: seq<int>, head: nat, w: nat)
    requires Graph(adj) && s < |adj| && Queued(adj, s, queue, dist) && Frontier(adj, s, queue, head) && head < |queue|
    requires w in adj[queue[head]] && w !in queue
    ensures Level(adj, s, w) == Level(adj, s, queue[head]) + 1
    ensures Queued(adj, s, queue + [w], dist[w := dist[queue[head]] + 1]) && Frontier(adj, s, queue + [w], head)
  {
    var v := queue[head];
    assert v in queue && v in adj[w];
    NeighbourLevel(adj, s, v, w);
    if Level(adj, s, w) <= Level(adj, s, v) { LevelsComplete(adj, s, queue, dist, head, w, Level(adj, s, w)); }
    var longer := queue + [w];
    assert forall x :: x in longer <==> x in queue || x == w;
    assert forall i :: 0 <= i < |queue| ==> longer[i] == queue[i] && queue[i] in queue;
  }

  lemma KnownStep(adj: Adjacency, s: nat, done: set<nat>, v: nat, seen: set<nat>, w: nat, sigma: seq<nat>, parents: seq<seq<nat>>, found: bool)
    requires Graph(adj) && AllKnown(adj, s, done, v, seen, sigma, parents)
    requires v < |adj| && w in adj[v] && w !in seen && v !in done && (found <==> Precedes(adj, s, v, w))
    requires Level(adj, s, v) >= 0 && sigma[v] == Walks(adj, s, v, Level(adj, s, v))
    ensures AllKnown(adj, s, done, v, seen + {w},
              if found then sigma[w := sigma[w] + sigma[v]] else sigma, if found then parents[w := parents[w] + [v]] else parents)
  {
    hide Shares, Level;
    var ns, np := if found then sigma[w := sigma[w] + sigma[v]] else sigma, if found then parents[w := parents[w] + [v]] else parents;
    forall x: nat | x < |adj| ensures Known(adj, s, done, v, seen + {w}, x, ns[x], np[x]) {
      assert Known(adj, s, done, v, seen, x, sigma[x], parents[x]);
      ShareStep(adj, s, done, v, seen, w, x);
      assert v !in parents[w] by { assert Known(adj, s, done, v, seen, w, sigma[w], parents[w]); }
      assert forall u :: u in parents[w] + [v] <==> u in parents[w] || u == v;
    }
  }

  lemma KnownFinish(adj: Adjacency, s: nat, done: set<nat>, v: nat, seen: set<nat>, next: nat, sigma: seq<nat>, parents: seq<seq<nat>>)
    requires Graph(adj) && AllKnown(adj, s, done, v, seen, sigma, parents) && v < |adj| && seen == SetOf(adj[v])
    ensures AllKnown(adj, s, done + {v}, next, {}, sigma, parents)
  {
    hide Shares, Level;
    forall w: nat | w < |adj| ensures Known(adj, s, done + {v}, next, {}, w, sigma[w], parents[w]) {
      assert Known(adj, s, done, v, seen, w, sigma[w], parents[w]);
      ShareFinish(adj, s, done, v, seen, next, w);
    }
  }

  // --------------------------------------------------------------- the search

  // Follow the edge from the vertex being finished to one neighbour.
  method FollowEdge(adj: Adjacency, s: nat, start: seq<nat>, head: nat, w: nat, dist: array<int>, sigma: array<nat>, parents: array<seq<nat>>, ghost seen: set<nat>)
    returns (queue: seq<nat>)
    requires Graph(adj) && s < |adj| && dist.Length == sigma.Length == parents.Length == |adj|
    requires Queued(adj, s, start, dist[..]) && Frontier(adj, s, start, head) && head < |start|
    requires AllKnown(adj, s, Done(start, head), start[head], seen, sigma[..], parents[..])
    requires start[head] < |adj| && w in adj[start[head]] && w !in seen
    modifies dist, sigma, parents
    ensures start <= queue && w in queue && Queued(adj, s, queue, dist[..]) && Frontier(adj, s, queue, head)
    ensures AllKnown(adj, s, Done(start, head), start[head], seen + {w}, sigma[..], parents[..])
  {
    hide Known, Level, Walks;
    var v := start[head];
    queue := start;
    HeadIsNotDone(start, head);
    assert Known(adj, s, Done(start, head), v, seen, v, sigma[..][v], parents[..][v]);
    HeadIsCounted(adj, s, start, dist[..], head, seen, sigma[v], parents[v]);
    assert dist[..][w] == dist[w] && dist[..][v] == dist[v] && v in start;
    if dist[w] < 0 {
      NewIsNext(adj, s, start, dist[..], head, w);
      ghost var before := dist[..];
      dist[w] := dist[v] + 1;
      assert dist[..] == before[w := before[v] + 1];
      queue := queue + [w];
    }
    assert w in queue && dist[..][w] == Level(adj, s, w);
    ghost var counts, lists := sigma[..], parents[..];
    KnownStep(adj, s, Done(start, head), v, seen, w, counts, lists, dist[w] == dist[v] + 1);
    if dist[w] == dist[v] + 1 {
      sigma[w] := sigma[w] + sigma[v];
      parents[w] := parents[w] + [v];
      assert sigma[..] == counts[w := counts[w] + counts[v]] && parents[..] == lists[w := lists[w] + [v]];
    }
  }

  // Every reachable vertex is discovered once the whole queue is finished.
  lemma {:induction false} AllDiscovered(adj: Adjacency, s: nat, queue: seq<nat>, dist: seq<int>, v: nat, d: nat)
    requires Graph(adj) && s < |adj| && Queued(adj, s, queue, dist) && Frontier(adj, s, queue, |queue|)
    requires v < |adj| && Walks(adj, s, v, d) > 0
    ensures v in queue
    decreases d
  {
    if d > 0 {
      var u := StepComesFrom(adj, s, v, d - 1);
      AllDiscovered(adj, s, queue, dist, u, d - 1);
      var i :| 0 <= i < |queue| && queue[i] == u;
      assert v in adj[queue[i]];
    }
  }

  // What the search reports about one vertex.
  ghost predicate Reported(adj: Adjacency, s: nat, v: nat, dist: int, sigma: nat, parents: seq<nat>) {
    && dist == Level(adj, s, v)
    && (dist >= 0 ==> IsDistance(adj, s, v, dist) && sigma == |WalkSet(adj, s, v, dist)|)
    && (dist < 0 ==> (forall d: nat :: Walks(adj, s, v, d) == 0) && sigma == 0)
    && Distinct(parents) && (v < |adj| ==> forall u :: u in parents <==> u in adj[v] && Precedes(adj, s, u, v))
  }

  lemma FinishedIsReported(adj: Adjacency, s: nat, queue: seq<nat>, dist: seq<int>, sigma: nat, parents: seq<nat>, next: nat, w: nat)
    requires Graph(adj) && s < |adj| && Queued(adj, s, queue, dist) && Frontier(adj, s, queue, |queue|) && w < |adj|
    requires Known(adj, s, Done(queue, |queue|), next, {}, w, sigma, parents)
    ensures Reported(adj, s, w, dist[w], sigma, parents)
  {
    assert queue[..|queue|] == queue;
    forall d: nat | w !in queue ensures Walks(adj, s, w, d) == 0 {
      if Walks(adj, s, w, d) > 0 { AllDiscovered(adj, s, queue, dist, w, d); }
    }
    SourceLevel(adj, s);
    if w == s {
      SourceShares(adj, s, Done(queue, |queue|), next, {});
      assert Walks(adj, s, s, 0) == 1 && IsDistance(adj, s, s, 0);
      WalksAreCounted(adj, s, s, 0);
      forall u | u in adj[w] ensures !Precedes(adj, s, u, w) { }
    } else if w in queue {
      LevelExists(adj, s, w);
      assert Walks(adj, s, w, 0) == 0;
      forall u | u in adj[w] && Precedes(adj, s, u, w) ensures u in Done(queue, |queue|) {
        LevelExists(adj, s, u);
        AllDiscovered(adj, s, queue, dist, u, Level(adj, s, u));
      }
      AllShares(adj, s, Done(queue, |queue|), next, {}, w);
      WalksAreCounted(adj, s, w, Level(adj, s, w));
    } else {
      assert Level(adj, s, w) == -1;
      SumPositive(adj[w], (u: nat) => Share(adj, s, u, w, Followed(Done(queue, |queue|), next, {}, u, w)));
    }
  }

  // Follow all edges of the vertex at `head`.
  method FollowAll(adj: Adjacency, s: nat, start: seq<nat>, head: nat, dist: array<int>, sigma: array<nat>, parents: array<seq<nat>>)
    returns (queue: seq<nat>)
    requires Graph(adj) && s < |adj| && dist.Length == sigma.Length == parents.Length == |adj|
    requires Queued(adj, s, start, dist[..]) && Frontier(adj, s, start, head) && head < |start| && start[head] < |adj|
    requires AllKnown(adj, s, Done(start, head), start[head], {}, sigma[..], parents[..])
    modifies dist, sigma, parents
    ensures start <= queue && Queued(adj, s, queue, dist[..]) && Frontier(adj, s, queue, head)
    ensures forall w :: w in adj[start[head]] ==> w in queue
    ensures AllKnown(adj, s, Done(start, head), start[head], SetOf(adj[start[head]]), sigma[..], parents[..])
  {
    hide AllKnown, Queued, Frontier, Level, Walks;
    queue := start;
    var v := start[head];
    assert SetOf(adj[v][..0]) == {};
    for j := 0 to |adj[v]|
      invariant start <= queue && Queued(adj, s, queue, dist[..]) && Frontier(adj, s, queue, head)
      invariant AllKnown(adj, s, Done(start, head), v, SetOf(adj[v][..j]), sigma[..], parents[..])
      invariant forall w :: w in adj[v][..j] ==> w in queue
    {
      assert queue[..head] == start[..head] && queue[head] == v;
      queue := FollowEdge(adj, s, queue, head, adj[v][j], dist, sigma, parents, SetOf(adj[v][..j]));
      assert adj[v][..j + 1] == adj[v][..j] + [adj[v][j]];
      assert SetOf(adj[v][..j + 1]) == SetOf(adj[v][..j]) + {adj[v][j]};
    }
    assert adj[v][..|adj[v]|] == adj[v];
  }

  /** One search: the queue lists exactly the reachable vertices in nondecreasing distance;
      every distance is the length of a shortest path, `parents` are exactly the shortest-path
      predecessors, and `sigma` is the number of shortest paths. */
  method ShortestPaths(adj: Adjacency, s: nat) returns (queue: seq<nat>, dist: array<int>, sigma: array<nat>, parents: array<seq<nat>>)
    requires Graph(adj) && s < |adj|
    ensures fresh(dist) && fresh(sigma) && fresh(parents) && dist.Length == sigma.Length == parents.Length == |adj|
    ensures Distinct(queue) && forall v: nat :: v in queue <==> Reachable(adj, s, v)
    ensures forall i, j :: 0 <= i < j < |queue| ==> Level(adj, s, queue[i]) <= Level(adj, s, queue[j])
    ensures forall v: nat :: v < |adj| ==> Reported(adj, s, v, dist[v], sigma[v], parents[v])
  {
    hide Known, Level, Walks, Reported, Reachable, Queued, Frontier, AllKnown;
    dist := new int[|adj|](_ => -1);
    sigma := new nat[|adj|](_ => 0);
    parents := new seq<nat>[|adj|](_ => []);
    dist[s], sigma[s] := 0, 1;
    queue := [s];
    StartState(adj, s, dist[..], sigma[..], parents[..]);
    var head := 0;
    while head < |queue|
      invariant head <= |queue| && Queued(adj, s, queue, dist[..]) && Frontier(adj, s, queue, head)
      invariant AllKnown(adj, s, Done(queue, head), if head < |queue| then queue[head] else 0, {}, sigma[..], parents[..])
      decreases |adj| - head
    {
      ghost var v, done := queue[head], Done(queue, head);
      QueueFits(adj, s, queue, dist[..]);
      queue := FollowAll(adj, s, queue, head, dist, sigma, parents);
      assert queue[head] == v && Done(queue, head) == done;
      QueueFits(adj, s, queue, dist[..]);
      HeadIsNotDone(queue, head);
      FrontierAdvances(adj, s, queue, dist[..], head);
      KnownFinish(adj, s, done, v, SetOf(adj[v]), if head + 1 < |queue| then queue[head + 1] else 0, sigma[..], parents[..]);
      head := head + 1;
    }
    FinalReport(adj, s, queue, dist[..], sigma[..], parents[..]);
  }

  lemma StartState(adj: Adjacency, s: nat, dist: seq<int>, sigma: seq<nat>, parents: seq<seq<nat>>)
    requires Graph(adj) && s < |adj| && |dist| == |sigma| == |parents| == |adj|
    requires forall v: nat :: v < |adj| ==> dist[v] == (if v == s then 0 else -1) && sigma[v] == (if v == s then 1 else 0) && parents[v] == []
    ensures Queued(adj, s, [s], dist) && Frontier(adj, s, [s], 0) && AllKnown(adj, s, Done([s], 0), s, {}, sigma, parents)
  {
    SourceLevel(adj, s);
    assert Done([s], 0) == {};
    forall w: nat | w < |adj| ensures Known(adj, s, {}, s, {}, w, sigma[w], parents[w]) {
      SumPositive(adj[w], (u: nat) => Share(adj, s, u, w, Followed({}, s, {}, u, w)));
    }
  }

  lemma FrontierAdvances(adj: Adjacency, s: nat, queue: seq<nat>, dist: seq<int>, head: nat)
    requires Queued(adj, s, queue, dist) && Frontier(adj, s, queue, head) && head < |queue| && queue[head] < |adj|
    requires forall w :: w in adj[queue[head]] ==> w in queue
    ensures Frontier(adj, s, queue, head + 1)
  {
  }

  lemma QueueFits(adj: Adjacency, s: nat, queue: seq<nat>, dist: seq<int>)
    requires Queued(adj, s, queue, dist)
    ensures Distinct(queue) && |queue| <= |adj| && forall i :: 0 <= i < |queue| ==> queue[i] < |adj|
  {
    hide Level;
    FitsBelow(queue, |adj|);
  }

  lemma FitsBelow(queue: seq<nat>, n: nat)
    requires Distinct(queue) && forall v :: v in queue ==> v < n
    ensures |queue| <= n
  {
    BelowIs(n);
    DistinctSize(queue);
    SubsetSize(SetOf(queue), Below(n));
  }

  ghost function Below(n: nat): set<nat> { if n == 0 then {} else Below(n - 1) + {n - 1} }

  lemma {:induction false} BelowIs(n: nat)
    ensures |Below(n)| == n && forall i: nat :: i in Below(n) <==> i < n
  {
    if n > 0 { BelowIs(n - 1); }
  }

  lemma {:induction false} DistinctSize(queue: seq<nat>)
    requires Distinct(queue)
    ensures |SetOf(queue)| == |queue|
  {
    if queue != [] {
      var before, last := queue[..|queue| - 1], queue[|queue| - 1];
      DistinctSize(before);
      assert queue == before + [last];
      assert SetOf(queue) == SetOf(before) + {last};
    }
  }

  lemma FinalReport(adj: Adjacency, s: nat, queue: seq<nat>, dist: seq<int>, sigma: seq<nat>, parents: seq<seq<nat>>)
    requires Graph(adj) && s < |adj| && Queued(adj, s, queue, dist) && Frontier(adj, s, queue, |queue|)
    requires AllKnown(adj, s, Done(queue, |queue|), 0, {}, sigma, parents)
    ensures forall v: nat :: v < |adj| ==> Reported(adj, s, v, dist[v], sigma[v], parents[v])
    ensures Distinct(queue) && forall v: nat :: v in queue <==> Reachable(adj, s, v)
    ensures forall i, j :: 0 <= i < j < |queue| ==> Level(adj, s, queue[i]) <= Level(adj, s, queue[j])
  {
    hide Known;
    forall v: nat | v < |adj| ensures Reported(adj, s, v, dist[v], sigma[v], parents[v]) {
      FinishedIsReported(adj, s, queue, dist, sigma[v], parents[v], 0, v);
    }
    forall v: nat ensures v in queue <==> Reachable(adj, s, v) { DiscoveredIsReachable(adj, s, queue, dist, v); }
  }

  ghost predicate Reachable(adj: Adjacency, s: nat, v: nat) { v < |adj| && exists d: nat :: Walks(adj, s, v, d) > 0 }

  lemma DiscoveredIsReachable(adj: Adjacency, s: nat, queue: seq<nat>, dist: seq<int>, v: nat)
    requires Graph(adj) && s < |adj| && Queued(adj, s, queue, dist) && Frontier(adj, s, queue, |queue|)
    ensures v in queue <==> Reachable(adj, s, v)
  {
    if v in queue {
      LevelExists(adj, s, v);
      assert Walks(adj, s, v, Level(adj, s, v)) > 0;
    }
    if Reachable(adj, s, v) {
      var d: nat :| Walks(adj, s, v, d) > 0;
      AllDiscovered(adj, s, queue, dist, v, d);
    }
  }
}
