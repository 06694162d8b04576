/** Betweenness in an observed overlay graph: how much of the shortest paths between other
    nodes runs through a node. The program never lists a path. It adds up dependencies
    backwards over the queue of each search; here they are shown to be the shares of the
    paths themselves. Numbers are exact.
 */
module Betweenness {
  import opened Model
  import opened GraphBfs

  // ---------------------------------------------------------- the definition

  // The shortest paths from s to t, and those of them that visit v.
  ghost function Paths(adj: Adjacency, s: nat, t: nat): set<seq<nat>> {
    if Level(adj, s, t) >= 0 then WalkSet(adj, s, t, Level(adj, s, t)) else {}
  }

  ghost function Passing(adj: Adjacency, s: nat, t: nat, v: nat): set<seq<nat>> { set p | p in Paths(adj, s, t) && v in p }

  function Per(x: nat, y: nat): real { if y == 0 then 0.0 else x as real / y as real }

  ghost function Fraction(adj: Adjacency, s: nat, t: nat, v: nat): real { Per(|Passing(adj, s, t, v)|, |Paths(adj, s, t)|) }

  function Upto(n: nat): seq<nat> { if n == 0 then [] else Upto(n - 1) + [n - 1] }

  ghost function Total(ns: seq<nat>, f: nat -> real): real {
    if ns == [] then 0.0 else Total(ns[..|ns| - 1], f) + f(ns[|ns| - 1])
  }

  // The dependency of one source on v: over all other targets, the share of paths through v.
  ghost function Dependency(adj: Adjacency, s: nat, v: nat): real {
    Total(Upto(|adj|), (t: nat) => if t == v then 0.0 else Fraction(adj, s, t, v))
  }

  // The dependencies of the first sources on v; over all of them, all ordered pairs.
  ghost function BetweenFrom(adj: Adjacency, sources: nat, v: nat): real {
    Total(Upto(sources), (s: nat) => if s == v then 0.0 else Dependency(adj, s, v))
  }

  ghost function Between(adj: Adjacency, v: nat): real { BetweenFrom(adj, |adj|, v) }

  // -------------------------------------------------------------------- sums

  lemma {:induction false} UptoIs(n: nat)
    ensures |Upto(n)| == n && Distinct(Upto(n)) && forall i: nat :: i in Upto(n) <==> i < n
  {
    if n > 0 {
      UptoIs(n - 1);
      var before := Upto(n - 1);
      assert forall i :: 0 <= i < |before| ==> before[i] in before;
    }
  }

  lemma TotalStep(ns: seq<nat>, x: nat, f: nat -> real)
    ensures Total(ns + [x], f) == Total(ns, f) + f(x)
  {
    assert (ns + [x])[..|ns|] == ns;
  }

  lemma {:induction false} TotalAgrees(ns: seq<nat>, f: nat -> real, g: nat -> real)
    requires forall u :: u in ns ==> f(u) == g(u)
    ensures Total(ns, f) == Total(ns, g)
  {
    if ns != [] { TotalAgrees(ns[..|ns| - 1], f, g); }
  }

  lemma {:induction false} TotalPlus(ns: seq<nat>, f: nat -> real, g: nat -> real, h: nat -> real)
    requires forall u :: u in ns ==> h(u) == f(u) + g(u)
    ensures Total(ns, h) == Total(ns, f) + Total(ns, g)
  {
    if ns != [] { TotalPlus(ns[..|ns| - 1], f, g, h); }
  }

  lemma {:induction false} TotalScaled(ns: seq<nat>, f: nat -> real, g: nat -> real, c: real)
    requires forall u :: u in ns ==> g(u) == c * f(u)
    ensures Total(ns, g) == c * Total(ns, f)
  {
    if ns != [] {
      TotalScaled(ns[..|ns| - 1], f, g, c);
      Distribute(c, Total(ns[..|ns| - 1], f), f(ns[|ns| - 1]));
    }
  }

  lemma Distribute(c: real, x: real, y: real)
    ensures c * (x + y) == c * x + c * y
  {
  }

  lemma {:induction false} TotalNothing(ns: seq<nat>, f: nat -> real)
    requires forall u :: u in ns ==> f(u) == 0.0
    ensures Total(ns, f) == 0.0
  {
    if ns != [] { TotalNothing(ns[..|ns| - 1], f); }
  }

  // Changing one term of a sum over distinct numbers.
  lemma {:induction false} TotalChanges(ns: seq<nat>, f: nat -> real, g: nat -> real, v: nat)
    requires Distinct(ns) && forall u :: u in ns && u != v ==> f(u) == g(u)
    ensures v in ns ==> Total(ns, g) == Total(ns, f) + g(v) - f(v)
    ensures v !in ns ==> Total(ns, g) == Total(ns, f)
  {
    if ns != [] {
      var n := |ns| - 1;
      assert ns == ns[..n] + [ns[n]];
      if ns[n] == v {
        assert v !in ns[..n];
        TotalAgrees(ns[..n], f, g);
      } else {
        TotalChanges(ns[..n], f, g, v);
      }
    }
  }

  // The order of summation.
  lemma {:induction false} TotalSwap(ns: seq<nat>, ms: seq<nat>, h: (nat, nat) -> real)
    ensures Total(ns, (x: nat) => Total(ms, (y: nat) => h(x, y))) == Total(ms, (y: nat) => Total(ns, (x: nat) => h(x, y)))
  {
    if ns == [] {
      TotalNothing(ms, (y: nat) => Total(ns, (x: nat) => h(x, y)));
    } else {
      var before, last := ns[..|ns| - 1], ns[|ns| - 1];
      TotalSwap(before, ms, h);
      TotalPlus(ms, (y: nat) => Total(before, (x: nat) => h(x, y)), (y: nat) => h(last, y), (y: nat) => Total(ns, (x: nat) => h(x, y)));
    }
  }

  lemma {:induction false} SumSwap(ns: seq<nat>, ms: seq<nat>, h: (nat, nat) -> nat)
    ensures Sum(ns, (x: nat) => Sum(ms, (y: nat) => h(x, y))) == Sum(ms, (y: nat) => Sum(ns, (x: nat) => h(x, y)))
  {
    if ns == [] {
      SumPositive(ms, (y: nat) => Sum(ns, (x: nat) => h(x, y)));
    } else {
      var before, last := ns[..|ns| - 1], ns[|ns| - 1];
      SumSwap(before, ms, h);
      SumPlus(ms, (y: nat) => Sum(before, (x: nat) => h(x, y)), (y: nat) => h(last, y), (y: nat) => Sum(ns, (x: nat) => h(x, y)));
    }
  }

  lemma {:induction false} SumPlus(ns: seq<nat>, f: nat -> nat, g: nat -> nat, h: nat -> nat)
    requires forall u :: u in ns ==> h(u) == f(u) + g(u)
    ensures Sum(ns, h) == Sum(ns, f) + Sum(ns, g)
  {
    if ns != [] { SumPlus(ns[..|ns| - 1], f, g, h); }
  }

  lemma {:induction false} SumOne(ns: seq<nat>, x: nat)
    requires Distinct(ns)
    ensures Sum(ns, (u: nat) => if u == x then 1 else 0) == if x in ns then 1 else 0
  {
    if ns != [] {
      assert ns == ns[..|ns| - 1] + [ns[|ns| - 1]];
      SumOne(ns[..|ns| - 1], x);
    }
  }

  lemma {:induction false} SumScaled(ns: seq<nat>, f: nat -> nat, g: nat -> nat, c: nat)
    requires forall u :: u in ns ==> g(u) == c * f(u)
    ensures Sum(ns, g) == c * Sum(ns, f)
  {
    if ns != [] { SumScaled(ns[..|ns| - 1], f, g, c); }
  }

  lemma PerPlus(a: nat, b: nat, c: nat)
    ensures Per(a + b, c) == Per(a, c) + Per(b, c)
  {
  }

  lemma PerNothing(c: nat)
    ensures Per(0, c) == 0.0
  {
  }

  lemma PerTimes(a: nat, b: nat, c: nat)
    ensures Per(a * b, c) == a as real * Per(b, c)
    ensures a > 0 ==> Per(a, a) == 1.0 && a as real * Per(1, a) == 1.0
  {
    assert (a * b) as real == a as real * b as real;
  }

  lemma {:induction false} PerSum(ns: seq<nat>, f: nat -> nat, c: nat)
    ensures Per(Sum(ns, f), c) == Total(ns, (u: nat) => Per(f(u), c))
  {
    if ns != [] {
      var before, last := ns[..|ns| - 1], ns[|ns| - 1];
      PerSum(before, f, c);
      PerPlus(Sum(before, f), f(last), c);
      hide Per;
      TotalAgrees(before, (u: nat) => Per(f(u), c), (u: nat) => Per(f(u), c));
    }
  }

  // -------------------------------------------------------- walks, both ways

  lemma {:induction false} WalksJoin(adj: Adjacency, s: nat, w: nat, t: nat, a: nat, b: nat)
    requires Walks(adj, s, w, a) > 0 && Walks(adj, w, t, b) > 0
    ensures Walks(adj, s, t, a + b) > 0
    decreases b
  {
    if b > 0 {
      var u := StepComesFrom(adj, w, t, b - 1);
      WalksJoin(adj, s, w, u, a, b - 1);
      StepReaches(adj, s, u, t, a + b - 1);
    }
  }

  // A walk can be counted by its first step instead of its last.
  lemma {:induction false} FirstStep(adj: Adjacency, v: nat, t: nat, m: nat)
    requires Graph(adj) && v < |adj| && t < |adj|
    ensures Walks(adj, v, t, m + 1) == Sum(adj[v], (w: nat) => Walks(adj, w, t, m))
    decreases m
  {
    if m == 0 {
      SumOne(adj[t], v);
      SumAgrees(adj[t], (u: nat) => Walks(adj, v, u, 0), (u: nat) => if u == v then 1 else 0);
      SumOne(adj[v], t);
      SumAgrees(adj[v], (w: nat) => Walks(adj, w, t, 0), (w: nat) => if w == t then 1 else 0);
    } else {
      var h := (u: nat, w: nat) => Walks(adj, w, u, m - 1);
      forall u | u in adj[t] ensures Walks(adj, v, u, m) == Sum(adj[v], (w: nat) => h(u, w)) {
        FirstStep(adj, v, u, m - 1);
        SumAgrees(adj[v], (w: nat) => Walks(adj, w, u, m - 1), (w: nat) => h(u, w));
      }
      SumAgrees(adj[t], (u: nat) => Walks(adj, v, u, m), (u: nat) => Sum(adj[v], (w: nat) => h(u, w)));
      SumSwap(adj[t], adj[v], h);
      forall w | w in adj[v] ensures Walks(adj, w, t, m) == Sum(adj[t], (u: nat) => h(u, w)) {
        SumAgrees(adj[t], (u: nat) => Walks(adj, w, u, m - 1), (u: nat) => h(u, w));
      }
      SumAgrees(adj[v], (w: nat) => Walks(adj, w, t, m), (w: nat) => Sum(adj[t], (u: nat) => h(u, w)));
    }
  }

  // ------------------------------------------------------- paths through v

  // The number of shortest paths to t, and of ways to go on from v to t along one.
  ghost function Sigma(adj: Adjacency, s: nat, t: nat): nat {
    if Level(adj, s, t) >= 0 then Walks(adj, s, t, Level(adj, s, t)) else 0
  }

  ghost function Onward(adj: Adjacency, s: nat, v: nat, t: nat): nat {
    if 0 <= Level(adj, s, v) <= Level(adj, s, t) then Walks(adj, v, t, Level(adj, s, t) - Level(adj, s, v)) else 0
  }

  // Walks that are at v after k of k + m steps.
  ghost function At(adj: Adjacency, s: nat, v: nat, k: nat, t: nat, m: nat): set<seq<nat>> {
    set p | p in WalkSet(adj, s, t, k + m) && |p| > k && p[k] == v
  }

  lemma {:induction false} AtIsCounted(adj: Adjacency, s: nat, v: nat, k: nat, t: nat, m: nat)
    requires Graph(adj)
    ensures |At(adj, s, v, k, t, m)| == Walks(adj, s, v, k) * Walks(adj, v, t, m)
    decreases m
  {
    if m == 0 {
      WalksAreCounted(adj, s, v, k);
      WalksEndHere(adj, s, v, k, t);
    } else if t < |adj| {
      var family := (u: nat) => At(adj, s, v, k, u, m - 1);
      forall u | u in adj[t] ensures |family(u)| == Walks(adj, s, v, k) * Walks(adj, v, u, m - 1) && EndsAt(family(u), u) {
        AtIsCounted(adj, s, v, k, u, m - 1);
        WalksEnd(adj, s, u, k + m - 1);
      }
      LedOnCounted(adj[t], family, t);
      SumScaled(adj[t], (u: nat) => Walks(adj, v, u, m - 1), (u: nat) => |family(u)|, Walks(adj, s, v, k));
      AtLedOn(adj, s, v, k, t, m);
    } else {
      assert At(adj, s, v, k, t, m) == {};
    }
  }

  lemma WalksEndHere(adj: Adjacency, s: nat, v: nat, k: nat, t: nat)
    ensures At(adj, s, v, k, t, 0) == if t == v then WalkSet(adj, s, v, k) else {}
  {
    forall p | p in WalkSet(adj, s, t, k) ensures |p| > k && p[k] == t { WalkSetIs(adj, s, t, k, p); }
  }

  lemma AtLedOn(adj: Adjacency, s: nat, v: nat, k: nat, t: nat, m: nat)
    requires m > 0 && t < |adj|
    ensures At(adj, s, v, k, t, m) == LedOn(adj[t], (u: nat) => At(adj, s, v, k, u, m - 1), t)
  {
    var family := (u: nat) => At(adj, s, v, k, u, m - 1);
    forall u, p | u in adj[t] && p in WalkSet(adj, s, u, k + m - 1) ensures |p| == k + m && (p + [t])[k] == p[k] {
      WalkSetIs(adj, s, u, k + m - 1, p);
    }
    forall q ensures q in At(adj, s, v, k, t, m) <==> q in LedOn(adj[t], family, t) {
      if q in At(adj, s, v, k, t, m) {
        var u, p :| u in adj[t] && p in WalkSet(adj, s, u, k + m - 1) && q == p + [t];
        assert p in family(u);
      }
      if q in LedOn(adj[t], family, t) {
        var u, p :| u in adj[t] && p in family(u) && q == p + [t];
      }
    }
  }

  // A shortest path is at v exactly when it has made as many steps as v is away.
  lemma VisitedInTime(adj: Adjacency, s: nat, t: nat, v: nat, p: seq<nat>, k: nat)
    requires Graph(adj) && p in Paths(adj, s, t) && k < |p| && p[k] == v
    ensures Level(adj, s, v) == k && k <= Level(adj, s, t)
  {
    hide Level, Walks, WalkSet;
    var d := Level(adj, s, t);
    WalkSetIs(adj, s, t, d, p);
    WalkCut(adj, s, t, v, d, p, k);
    ReachableHasLevel(adj, s, v, k);
    WalksJoin(adj, s, v, t, Level(adj, s, v), d - k);
    ReachableHasLevel(adj, s, t, Level(adj, s, v) + d - k);
  }

  lemma WalkCut(adj: Adjacency, s: nat, t: nat, v: nat, d: nat, p: seq<nat>, k: nat)
    requires Graph(adj) && IsWalk(adj, s, t, d, p) && k <= d && p[k] == v
    ensures Walks(adj, s, v, k) > 0 && Walks(adj, v, t, d - k) > 0
  {
    hide Graph, Walks, WalkSet;
    assert IsWalk(adj, s, v, k, p[..k + 1]);
    assert IsWalk(adj, v, t, d - k, p[k..]);
    WalkExists(adj, s, v, k, p[..k + 1]);
    WalkExists(adj, v, t, d - k, p[k..]);
  }

  lemma WalkExists(adj: Adjacency, s: nat, v: nat, d: nat, p: seq<nat>)
    requires Graph(adj) && IsWalk(adj, s, v, d, p)
    ensures Walks(adj, s, v, d) > 0
  {
    hide Graph, WalkSet, Walks, IsWalk;
    WalkSetIs(adj, s, v, d, p);
    WalksAreCounted(adj, s, v, d);
    assert p in WalkSet(adj, s, v, d);
  }

  lemma PassingIs(adj: Adjacency, s: nat, t: nat, v: nat)
    requires Graph(adj) && Level(adj, s, t) >= 0
    ensures Passing(adj, s, t, v) ==
      if 0 <= Level(adj, s, v) <= Level(adj, s, t) then At(adj, s, v, Level(adj, s, v), t, Level(adj, s, t) - Level(adj, s, v)) else {}
  {
    hide Level, WalkSet;
    forall p | p in Passing(adj, s, t, v)
      ensures 0 <= Level(adj, s, v) <= Level(adj, s, t) && Level(adj, s, v) < |p| && p[Level(adj, s, v)] == v
    {
      var k :| 0 <= k < |p| && p[k] == v;
      VisitedInTime(adj, s, t, v, p, k);
    }
  }

  /** The shortest paths that visit v: the ways to reach v times the ways to go on. */
  lemma PassingIsCounted(adj: Adjacency, s: nat, t: nat, v: nat)
    requires Graph(adj)
    ensures |Paths(adj, s, t)| == Sigma(adj, s, t)
    ensures |Passing(adj, s, t, v)| == if Level(adj, s, t) >= 0 then Sigma(adj, s, v) * Onward(adj, s, v, t) else 0
  {
    hide Level, Walks, WalkSet;
    if Level(adj, s, t) >= 0 {
      WalksAreCounted(adj, s, t, Level(adj, s, t));
      PassingIs(adj, s, t, v);
      if 0 <= Level(adj, s, v) <= Level(adj, s, t) {
        AtIsCounted(adj, s, v, Level(adj, s, v), t, Level(adj, s, t) - Level(adj, s, v));
      }
    } else {
      assert Passing(adj, s, t, v) == {};
    }
  }

  // --------------------------------------------------------- one step onward

  lemma NotOnward(adj: Adjacency, s: nat, v: nat, w: nat, t: nat, m: nat)
    requires Graph(adj) && v < |adj| && w in adj[v] && 0 <= Level(adj, s, v) && Level(adj, s, t) == Level(adj, s, v) + m + 1
    requires !Precedes(adj, s, v, w)
    ensures Walks(adj, w, t, m) == 0
  {
    hide Level;
    NeighbourLevel(adj, s, v, w);
    if Walks(adj, w, t, m) > 0 {
      LevelExists(adj, s, w);
      WalksJoin(adj, s, w, t, Level(adj, s, w), m);
      ReachableHasLevel(adj, s, t, Level(adj, s, w) + m);
    }
  }

  // To go on from v to another vertex is to go on from one of its successors.
  lemma OnwardStep(adj: Adjacency, s: nat, v: nat, t: nat)
    requires Graph(adj) && v < |adj| && t < |adj| && t != v && Level(adj, s, v) >= 0
    ensures Onward(adj, s, v, t) == Sum(adj[v], (w: nat) => if Precedes(adj, s, v, w) then Onward(adj, s, w, t) else 0)
  {
    hide Level;
    var rest := (w: nat) => if Precedes(adj, s, v, w) then Onward(adj, s, w, t) else 0;
    if Level(adj, s, t) > Level(adj, s, v) {
      var m: nat := Level(adj, s, t) - Level(adj, s, v) - 1;
      FirstStep(adj, v, t, m);
      forall w | w in adj[v] ensures Walks(adj, w, t, m) == rest(w) {
        if !Precedes(adj, s, v, w) { NotOnward(adj, s, v, w, t, m); }
      }
      SumAgrees(adj[v], (w: nat) => Walks(adj, w, t, m), rest);
    } else {
      assert Onward(adj, s, v, t) == 0;
      SumPositive(adj[v], rest);
    }
  }

  // ------------------------------------------------------------ dependencies

  // What t contributes to v, per shortest path to v.
  ghost function Ahead(adj: Adjacency, s: nat, v: nat, t: nat): real { Per(Onward(adj, s, v, t), Sigma(adj, s, t)) }

  ghost function Pull(adj: Adjacency, s: nat, v: nat): real { Total(Upto(|adj|), (t: nat) => Ahead(adj, s, v, t)) }

  lemma SigmaIsPositive(adj: Adjacency, s: nat, t: nat)
    requires Level(adj, s, t) >= 0
    ensures Sigma(adj, s, t) > 0
  {
    LevelExists(adj, s, t);
  }

  lemma OnwardToItself(adj: Adjacency, s: nat, v: nat, w: nat)
    requires Level(adj, s, v) >= 0
    ensures Onward(adj, s, v, v) == 1 && (Precedes(adj, s, v, w) ==> Onward(adj, s, w, v) == 0)
  {
    hide Level;
  }

  lemma AheadStep(adj: Adjacency, s: nat, v: nat, t: nat)
    requires Graph(adj) && v < |adj| && t < |adj| && Level(adj, s, v) >= 0
    ensures Ahead(adj, s, v, t) ==
      Total(adj[v], (w: nat) => if Precedes(adj, s, v, w) then Ahead(adj, s, w, t) else 0.0)
      + if t == v then Per(1, Sigma(adj, s, v)) else 0.0
  {
    hide Level, Onward, Sigma, Precedes, Per, Total;
    if t == v { AheadOfItself(adj, s, v); } else { AheadOfOther(adj, s, v, t); }
  }

  lemma AheadOfItself(adj: Adjacency, s: nat, v: nat)
    requires Level(adj, s, v) >= 0 && v < |adj|
    ensures Ahead(adj, s, v, v) == Per(1, Sigma(adj, s, v))
    ensures Total(adj[v], (w: nat) => if Precedes(adj, s, v, w) then Ahead(adj, s, w, v) else 0.0) == 0.0
  {
    hide Level, Onward, Sigma, Precedes, Total;
    forall w | w in adj[v] && Precedes(adj, s, v, w) ensures Ahead(adj, s, w, v) == 0.0 { OnwardToItself(adj, s, v, w); }
    TotalNothing(adj[v], (w: nat) => if Precedes(adj, s, v, w) then Ahead(adj, s, w, v) else 0.0);
    OnwardToItself(adj, s, v, v);
  }

  lemma AheadOfOther(adj: Adjacency, s: nat, v: nat, t: nat)
    requires Graph(adj) && v < |adj| && t < |adj| && t != v && Level(adj, s, v) >= 0
    ensures Ahead(adj, s, v, t) == Total(adj[v], (w: nat) => if Precedes(adj, s, v, w) then Ahead(adj, s, w, t) else 0.0)
  {
    hide Level, Onward, Sigma, Precedes, Per, Total;
    var rest: nat -> nat := (w: nat) => if Precedes(adj, s, v, w) then Onward(adj, s, w, t) else 0;
    var c := Sigma(adj, s, t);
    OnwardStep(adj, s, v, t);
    PerSum(adj[v], rest, c);
    PerNothing(c);
    TotalAgrees(adj[v], (w: nat) => Per(rest(w), c), (w: nat) => if Precedes(adj, s, v, w) then Ahead(adj, s, w, t) else 0.0);
  }

  lemma PullStep(adj: Adjacency, s: nat, v: nat)
    requires Graph(adj) && v < |adj| && Level(adj, s, v) >= 0
    ensures Pull(adj, s, v) ==
      Total(adj[v], (w: nat) => if Precedes(adj, s, v, w) then Pull(adj, s, w) else 0.0) + Per(1, Sigma(adj, s, v))
  {
    hide Level, Ahead, Precedes, Per, Sigma;
    var n := Upto(|adj|);
    var h := (t: nat, w: nat) => if Precedes(adj, s, v, w) then Ahead(adj, s, w, t) else 0.0;
    var own := (t: nat) => if t == v then Per(1, Sigma(adj, s, v)) else 0.0;
    UptoIs(|adj|);
    forall t | t in n ensures Ahead(adj, s, v, t) == Total(adj[v], (w: nat) => h(t, w)) + own(t) {
      AheadStep(adj, s, v, t);
      TotalAgrees(adj[v], (w: nat) => if Precedes(adj, s, v, w) then Ahead(adj, s, w, t) else 0.0, (w: nat) => h(t, w));
    }
    TotalPlus(n, (t: nat) => Total(adj[v], (w: nat) => h(t, w)), own, (t: nat) => Ahead(adj, s, v, t));
    TotalSwap(n, adj[v], h);
    forall w | w in adj[v] ensures Total(n, (t: nat) => h(t, w)) == if Precedes(adj, s, v, w) then Pull(adj, s, w) else 0.0 {
      if Precedes(adj, s, v, w) {
        TotalAgrees(n, (t: nat) => h(t, w), (t: nat) => Ahead(adj, s, w, t));
      } else {
        TotalNothing(n, (t: nat) => h(t, w));
      }
    }
    TotalAgrees(adj[v], (w: nat) => Total(n, (t: nat) => h(t, w)), (w: nat) => if Precedes(adj, s, v, w) then Pull(adj, s, w) else 0.0);
    OneTerm(n, v, Per(1, Sigma(adj, s, v)));
    TotalAgrees(n, own, (t: nat) => if t == v then Per(1, Sigma(adj, s, v)) else 0.0);
  }

  lemma OneTerm(ns: seq<nat>, v: nat, x: real)
    requires Distinct(ns) && v in ns
    ensures Total(ns, (t: nat) => if t == v then x else 0.0) == x
  {
    TotalNothing(ns, (t: nat) => 0.0);
    TotalChanges(ns, (t: nat) => 0.0, (t: nat) => if t == v then x else 0.0, v);
  }

  // In terms of paths: the dependency on v, and v itself as a target.
  lemma DependencyIs(adj: Adjacency, s: nat, v: nat)
    requires Graph(adj) && v < |adj| && Level(adj, s, v) >= 0
    ensures Dependency(adj, s, v) == Sigma(adj, s, v) as real * Pull(adj, s, v) - 1.0
  {
    hide Level, Onward, Sigma, Fraction, Ahead, Per, Total;
    var n, c := Upto(|adj|), Sigma(adj, s, v);
    var whole := (t: nat) => c as real * Ahead(adj, s, v, t);
    UptoIs(|adj|);
    forall t | t in n ensures Fraction(adj, s, t, v) == whole(t) { FractionIs(adj, s, t, v); }
    TotalScaled(n, (t: nat) => Ahead(adj, s, v, t), whole, c as real);
    var others := (t: nat) => if t == v then 0.0 else Fraction(adj, s, t, v);
    TotalChanges(n, whole, others, v);
    assert whole(v) == 1.0 by { OwnShare(adj, s, v); }
  }

  lemma OwnShare(adj: Adjacency, s: nat, v: nat)
    requires Level(adj, s, v) >= 0
    ensures Sigma(adj, s, v) as real * Ahead(adj, s, v, v) == 1.0
  {
    hide Level, Onward, Sigma;
    SigmaIsPositive(adj, s, v);
    OnwardToItself(adj, s, v, v);
    PerTimes(Sigma(adj, s, v), 1, Sigma(adj, s, v));
  }

  lemma FractionIs(adj: Adjacency, s: nat, t: nat, v: nat)
    requires Graph(adj)
    ensures Fraction(adj, s, t, v) == Sigma(adj, s, v) as real * Ahead(adj, s, v, t)
  {
    hide Level, Paths, Passing, Walks;
    PassingIsCounted(adj, s, t, v);
    PerTimes(Sigma(adj, s, v), Onward(adj, s, v, t), Sigma(adj, s, t));
  }

  // What the program adds to the dependency on v for one successor w.
  ghost function Term(adj: Adjacency, s: nat, v: nat, w: nat): real {
    Per(Sigma(adj, s, v), Sigma(adj, s, w)) * (1.0 + Dependency(adj, s, w))
  }

  /** Main lemma: the dependency on a vertex follows from those on its successors. */
  lemma DependencyStep(adj: Adjacency, s: nat, v: nat)
    requires Graph(adj) && v < |adj| && Level(adj, s, v) >= 0
    ensures Dependency(adj, s, v) == Total(adj[v], (w: nat) => if Precedes(adj, s, v, w) then Term(adj, s, v, w) else 0.0)
  {
    hide Level, Sigma, Dependency, Pull;
    var c := Sigma(adj, s, v);
    var parts := (w: nat) => if Precedes(adj, s, v, w) then Pull(adj, s, w) else 0.0;
    var terms := (w: nat) => if Precedes(adj, s, v, w) then Term(adj, s, v, w) else 0.0;
    DependencyIs(adj, s, v);
    PullStep(adj, s, v);
    forall w | w in adj[v] ensures terms(w) == c as real * parts(w) {
      if Precedes(adj, s, v, w) { TermIs(adj, s, v, w); }
    }
    TotalScaled(adj[v], parts, terms, c as real);
    SigmaIsPositive(adj, s, v);
    PerTimes(c, 1, c);
    Distribute(c as real, Total(adj[v], parts), Per(1, c));
  }

  lemma TermIs(adj: Adjacency, s: nat, v: nat, w: nat)
    requires Graph(adj) && w < |adj| && Level(adj, s, w) >= 0
    ensures Term(adj, s, v, w) == Sigma(adj, s, v) as real * Pull(adj, s, w)
  {
    hide Level, Dependency, Pull, Sigma;
    DependencyIs(adj, s, w);
    SigmaIsPositive(adj, s, w);
    Cancel(Sigma(adj, s, v), Sigma(adj, s, w), Pull(adj, s, w));
  }

  lemma Cancel(a: nat, b: nat, x: real)
    requires b > 0
    ensures Per(a, b) * (b as real * x) == a as real * x
  {
    assert Per(a, b) * b as real == a as real;
  }

  // ------------------------------------------------------- the accumulation

  // What has been added to the dependency on v: everything for the successors that are done,
  // and for w if v is among its predecessors seen so far.
  ghost predicate Counts(done: set<nat>, w: nat, seen: set<nat>, v: nat, x: nat) { x in done || (x == w && v in seen) }

  ghost function Gathered(adj: Adjacency, s: nat, done: set<nat>, w: nat, seen: set<nat>, v: nat): real
    requires v < |adj|
  {
    Total(adj[v], (x: nat) => if Precedes(adj, s, v, x) && Counts(done, w, seen, v, x) then Term(adj, s, v, x) else 0.0)
  }

  ghost predicate Collected(adj: Adjacency, s: nat, done: set<nat>, w: nat, seen: set<nat>, delta: seq<real>) {
    |delta| == |adj| && forall v: nat :: v < |adj| ==> delta[v] == Gathered(adj, s, done, w, seen, v)
  }

  // A finished search; see GraphBfs.ShortestPaths.
  ghost predicate Searched(adj: Adjacency, s: nat, queue: seq<nat>, dist: seq<int>, sigma: seq<nat>, parents: seq<seq<nat>>) {
    && Graph(adj) && s < |adj| && |dist| == |sigma| == |parents| == |adj|
    && Distinct(queue) && (forall v: nat :: v in queue <==> Reachable(adj, s, v))
    && (forall i, j :: 0 <= i < j < |queue| ==> Level(adj, s, queue[i]) <= Level(adj, s, queue[j]))
    && forall v: nat :: v < |adj| ==> Reported(adj, s, v, dist[v], sigma[v], parents[v])
  }

  lemma NothingCollected(adj: Adjacency, s: nat, delta: seq<real>)
    requires |delta| == |adj| && forall v :: 0 <= v < |adj| ==> delta[v] == 0.0
    ensures Collected(adj, s, {}, 0, {}, delta)
  {
    hide Term, Precedes;
    forall v: nat | v < |adj| ensures Gathered(adj, s, {}, 0, {}, v) == 0.0 {
      TotalNothing(adj[v], (x: nat) => if Precedes(adj, s, v, x) && Counts({}, 0, {}, v, x) then Term(adj, s, v, x) else 0.0);
    }
  }

  lemma CollectStep(adj: Adjacency, s: nat, done: set<nat>, w: nat, seen: set<nat>, v: nat, delta: seq<real>)
    requires Graph(adj) && Collected(adj, s, done, w, seen, delta)
    requires v < |adj| && w in adj[v] && Precedes(adj, s, v, w) && v !in seen && w !in done
    ensures Collected(adj, s, done, w, seen + {v}, delta[v := delta[v] + Term(adj, s, v, w)])
  {
    hide Term, Precedes;
    forall x: nat | x < |adj|
      ensures Gathered(adj, s, done, w, seen + {v}, x) == Gathered(adj, s, done, w, seen, x) + if x == v then Term(adj, s, v, w) else 0.0
    {
      var f := (y: nat) => if Precedes(adj, s, x, y) && Counts(done, w, seen, x, y) then Term(adj, s, x, y) else 0.0;
      var g := (y: nat) => if Precedes(adj, s, x, y) && Counts(done, w, seen + {v}, x, y) then Term(adj, s, x, y) else 0.0;
      if x == v { TotalChanges(adj[x], f, g, w); } else { TotalAgrees(adj[x], f, g); }
    }
  }

  lemma CollectFinish(adj: Adjacency, s: nat, done: set<nat>, w: nat, seen: set<nat>, next: nat, delta: seq<real>)
    requires Graph(adj) && w < |adj| && Collected(adj, s, done, w, seen, delta)
    requires forall v :: v in seen <==> v in adj[w] && Precedes(adj, s, v, w)
    ensures Collected(adj, s, done + {w}, next, {}, delta)
  {
    hide Term, Precedes;
    forall v: nat | v < |adj| ensures Gathered(adj, s, done + {w}, next, {}, v) == Gathered(adj, s, done, w, seen, v) {
      TotalAgrees(adj[v], (x: nat) => if Precedes(adj, s, v, x) && Counts(done + {w}, next, {}, v, x) then Term(adj, s, v, x) else 0.0,
                  (x: nat) => if Precedes(adj, s, v, x) && Counts(done, w, seen, v, x) then Term(adj, s, v, x) else 0.0);
    }
  }

  // All successors of the vertex at i are behind it in the queue, so its dependency is complete.
  lemma HeadDepends(adj: Adjacency, s: nat, queue: seq<nat>, dist: seq<int>, sigma: seq<nat>, parents: seq<seq<nat>>, i: nat, seen: set<nat>, delta: seq<real>)
    requires Searched(adj, s, queue, dist, sigma, parents) && i < |queue|
    requires Collected(adj, s, SetOf(queue[i + 1..]), queue[i], seen, delta)
    ensures queue[i] < |adj| && Level(adj, s, queue[i]) >= 0 && delta[queue[i]] == Dependency(adj, s, queue[i])
  {
    hide Term, Level, Dependency, Reported;
    var w, done := queue[i], SetOf(queue[i + 1..]);
    assert w in queue;
    ReachableIs(adj, s, w);
    forall x | x in adj[w] && Precedes(adj, s, w, x) ensures x in done {
      ReachableIs(adj, s, x);
      var j :| 0 <= j < |queue| && queue[j] == x;
      assert j > i;
      assert queue[i + 1..][j - i - 1] == x;
    }
    DependencyStep(adj, s, w);
    TotalAgrees(adj[w], (x: nat) => if Precedes(adj, s, w, x) then Term(adj, s, w, x) else 0.0,
                (x: nat) => if Precedes(adj, s, w, x) && Counts(done, w, seen, w, x) then Term(adj, s, w, x) else 0.0);
  }

  lemma ReachableIs(adj: Adjacency, s: nat, v: nat)
    requires v < |adj|
    ensures Reachable(adj, s, v) <==> Level(adj, s, v) >= 0
  {
    if Reachable(adj, s, v) {
      var d: nat :| Walks(adj, s, v, d) > 0;
      ReachableHasLevel(adj, s, v, d);
    }
    if Level(adj, s, v) >= 0 {
      LevelExists(adj, s, v);
      assert Walks(adj, s, v, Level(adj, s, v)) > 0;
    }
  }

  lemma SigmaIs(adj: Adjacency, s: nat, v: nat, dist: int, sigma: nat, parents: seq<nat>)
    requires Graph(adj) && Reported(adj, s, v, dist, sigma, parents)
    ensures sigma == Sigma(adj, s, v)
    ensures Level(adj, s, v) >= 0 ==> sigma > 0
  {
    hide Level;
    if dist >= 0 { WalksAreCounted(adj, s, v, dist); }
  }

  lemma UnreachedIsFree(adj: Adjacency, s: nat, v: nat)
    requires Graph(adj) && v < |adj| && Level(adj, s, v) < 0
    ensures Dependency(adj, s, v) == 0.0
  {
    hide Level, Paths, Passing, Onward, Total;
    forall t: nat ensures Fraction(adj, s, t, v) == 0.0 {
      PassingIsCounted(adj, s, t, v);
      assert |Passing(adj, s, t, v)| == 0;
      PerNothing(|Paths(adj, s, t)|);
    }
    TotalNothing(Upto(|adj|), (t: nat) => if t == v then 0.0 else Fraction(adj, s, t, v));
  }

  // Add one vertex's dependency to those of its predecessors.
  method Spread(adj: Adjacency, s: nat, queue: seq<nat>, ghost dist: seq<int>, sigma: array<nat>, parents: array<seq<nat>>, i: nat, delta: array<real>)
    requires Searched(adj, s, queue, dist, sigma[..], parents[..]) && i < |queue|
    requires delta.Length == sigma.Length == parents.Length == |adj|
    requires Collected(adj, s, SetOf(queue[i + 1..]), queue[i], {}, delta[..]) && queue[i] < |adj|
    modifies delta
    ensures delta[queue[i]] == Dependency(adj, s, queue[i])
    ensures Collected(adj, s, SetOf(queue[i..]), if i > 0 then queue[i - 1] else 0, {}, delta[..])
  {
    hide Term, Level, Dependency, Reported, Collected, Searched;
    var w := queue[i];
    ghost var done, counts, lists := SetOf(queue[i + 1..]), sigma[..], parents[..];
    QueueSuffix(adj, s, queue, dist, counts, lists, i);
    assert SetOf(parents[w][..0]) == {};
    for j := 0 to |parents[w]|
      invariant Collected(adj, s, done, w, SetOf(parents[w][..j]), delta[..])
    {
      var v := parents[w][j];
      ghost var seen, before := SetOf(parents[w][..j]), delta[..];
      HeadDepends(adj, s, queue, dist, counts, lists, i, seen, before);
      ParentIs(adj, s, queue, dist, counts, lists, w, j);
      assert sigma[v] == counts[v] && sigma[w] == counts[w] && before[w] == delta[w];
      CollectStep(adj, s, done, w, seen, v, before);
      TermFor(adj, s, v, w, sigma[v], sigma[w], delta[w]);
      var more := (sigma[v] as real / sigma[w] as real) * (1.0 + delta[w]);
      assert more == Term(adj, s, v, w) && before[v] == delta[v];
      delta[v] := delta[v] + more;
      assert delta[..] == before[v := before[v] + more];
      assert parents[w][..j + 1] == parents[w][..j] + [v];
      assert SetOf(parents[w][..j + 1]) == seen + {v};
    }
    assert parents[w][..|parents[w]|] == parents[w];
    HeadDepends(adj, s, queue, dist, counts, lists, i, SetOf(parents[w]), delta[..]);
    ParentsAre(adj, s, queue, dist, counts, lists, w);
    CollectFinish(adj, s, done, w, SetOf(parents[w]), if i > 0 then queue[i - 1] else 0, delta[..]);
  }

  lemma TermFor(adj: Adjacency, s: nat, v: nat, w: nat, a: nat, b: nat, d: real)
    requires a == Sigma(adj, s, v) && b == Sigma(adj, s, w) && b > 0 && d == Dependency(adj, s, w)
    ensures (a as real / b as real) * (1.0 + d) == Term(adj, s, v, w)
  {
    hide Sigma, Dependency;
  }

  lemma QueueSuffix(adj: Adjacency, s: nat, queue: seq<nat>, dist: seq<int>, sigma: seq<nat>, parents: seq<seq<nat>>, i: nat)
    requires Searched(adj, s, queue, dist, sigma, parents) && i < |queue|
    ensures Graph(adj) && queue[i] < |adj| && queue[i] in queue
    ensures SetOf(queue[i..]) == SetOf(queue[i + 1..]) + {queue[i]} && queue[i] !in SetOf(queue[i + 1..])
  {
    hide Level, Reported;
    assert queue[i] in queue && Reachable(adj, s, queue[i]);
    assert queue[i..] == [queue[i]] + queue[i + 1..];
  }

  lemma ParentIs(adj: Adjacency, s: nat, queue: seq<nat>, dist: seq<int>, sigma: seq<nat>, parents: seq<seq<nat>>, w: nat, j: nat)
    requires Searched(adj, s, queue, dist, sigma, parents) && w < |adj| && Level(adj, s, w) >= 0 && j < |parents[w]|
    ensures var v := parents[w][j];
      && v < |adj| && w in adj[v] && Precedes(adj, s, v, w) && v !in SetOf(parents[w][..j]) && v != w
      && sigma[v] == Sigma(adj, s, v) && sigma[w] == Sigma(adj, s, w) && sigma[w] > 0
  {
    hide Level, Reachable, Sigma;
    var v := parents[w][j];
    assert Reported(adj, s, w, dist[w], sigma[w], parents[w]) && v in parents[w];
    assert Reported(adj, s, v, dist[v], sigma[v], parents[v]);
    SigmaIs(adj, s, v, dist[v], sigma[v], parents[v]);
    SigmaIs(adj, s, w, dist[w], sigma[w], parents[w]);
  }

  lemma ParentsAre(adj: Adjacency, s: nat, queue: seq<nat>, dist: seq<int>, sigma: seq<nat>, parents: seq<seq<nat>>, w: nat)
    requires Searched(adj, s, queue, dist, sigma, parents) && w < |adj|
    ensures Graph(adj) && forall v :: v in SetOf(parents[w]) <==> v in adj[w] && Precedes(adj, s, v, w)
  {
    hide Level, Reachable;
    assert Reported(adj, s, w, dist[w], sigma[w], parents[w]);
  }

  // Visited in this source's order: what has been added to the centrality of each vertex.
  ghost predicate Added(adj: Adjacency, s: nat, done: set<nat>, before: seq<real>, after: seq<real>) {
    |before| == |after| == |adj| && forall v: nat :: v < |adj| ==>
      after[v] == before[v] + if v != s && v in done then Dependency(adj, s, v) else 0.0
  }

  /** One source: adds to every other vertex the share of this source's shortest paths that
      run through it. */
  method Accumulate(adj: Adjacency, s: nat, between: array<real>)
    requires Graph(adj) && s < |adj| && between.Length == |adj|
    modifies between
    ensures forall v: nat :: v < |adj| ==> between[v] == old(between[v]) + if v != s then Dependency(adj, s, v) else 0.0
  {
    hide Dependency, Level, Reported, Reachable, Collected;
    var queue, dist, sigma, parents := ShortestPaths(adj, s);
    ghost var levels, counts, lists, was := dist[..], sigma[..], parents[..], between[..];
    var delta := new real[|adj|](_ => 0.0);
    NothingCollected(adj, s, delta[..]);
    assert queue[|queue|..] == [] && SetOf([]) == {};
    Renamed(adj, s, 0, if |queue| > 0 then queue[|queue| - 1] else 0, delta[..]);
    for i := |queue| downto 0
      invariant sigma[..] == counts && parents[..] == lists && Searched(adj, s, queue, levels, counts, lists)
      invariant Collected(adj, s, SetOf(queue[i..]), if i > 0 then queue[i - 1] else 0, {}, delta[..])
      invariant Added(adj, s, SetOf(queue[i..]), was, between[..])
    {
      var w := queue[i];
      QueueSuffix(adj, s, queue, levels, counts, lists, i);
      Spread(adj, s, queue, levels, sigma, parents, i, delta);
      ghost var before := between[..];
      if w != s { between[w] := between[w] + delta[w]; }
    }
    assert queue[0..] == queue;
    forall v: nat | v < |adj| && v !in queue ensures Dependency(adj, s, v) == 0.0 {
      ReachableIs(adj, s, v);
      UnreachedIsFree(adj, s, v);
    }
  }

  lemma Renamed(adj: Adjacency, s: nat, w: nat, x: nat, delta: seq<real>)
    requires Collected(adj, s, {}, w, {}, delta)
    ensures Collected(adj, s, {}, x, {}, delta)
  {
    hide Term, Precedes;
    forall v: nat | v < |adj| ensures Gathered(adj, s, {}, x, {}, v) == Gathered(adj, s, {}, w, {}, v) {
      TotalAgrees(adj[v], (y: nat) => if Precedes(adj, s, v, y) && Counts({}, x, {}, v, y) then Term(adj, s, v, y) else 0.0,
                  (y: nat) => if Precedes(adj, s, v, y) && Counts({}, w, {}, v, y) then Term(adj, s, v, y) else 0.0);
    }
  }

  lemma OneMoreSource(adj: Adjacency, s: nat, v: nat)
    ensures BetweenFrom(adj, s + 1, v) == BetweenFrom(adj, s, v) + if s != v then Dependency(adj, s, v) else 0.0
    ensures BetweenFrom(adj, 0, v) == 0.0
  {
    TotalStep(Upto(s), s, (x: nat) => if x == v then 0.0 else Dependency(adj, x, v));
  }

  /** Main result: the accumulated numbers are the betweenness of every vertex, scaled by
      the number of ordered pairs of other vertices. */
  method Compute(adj: Adjacency) returns (between: array<real>)
    requires Graph(adj)
    ensures fresh(between) && between.Length == |adj|
    ensures forall v: nat :: v < |adj| ==> Normal(|adj|, Between(adj, v), between[v])
  {
    hide BetweenFrom, Dependency, Normal;
    var n := |adj|;
    between := new real[n](_ => 0.0);
    forall v: nat ensures BetweenFrom(adj, 0, v) == 0.0 { OneMoreSource(adj, 0, v); }
    for s := 0 to n
      invariant fresh(between) && between.Length == n
      invariant forall v: nat :: v < n ==> between[v] == BetweenFrom(adj, s, v)
    {
      Accumulate(adj, s, between);
      forall v: nat | v < n ensures between[v] == BetweenFrom(adj, s + 1, v) { OneMoreSource(adj, s, v); }
    }
    Normalize(between);
  }

  // Relative to the number of ordered pairs of other vertices, where there are any.
  ghost predicate Normal(n: nat, sum: real, x: real) {
    if n <= 2 then x == sum else x * ((n - 1) * (n - 2)) as real == sum
  }

  lemma DividedIsNormal(n: nat, sum: real)
    requires n > 2
    ensures (n - 1) as real * (n - 2) as real > 0.0
    ensures Normal(n, sum, sum / ((n - 1) as real * (n - 2) as real))
  {
    var pairs := (n - 1) as real * (n - 2) as real;
    assert pairs == ((n - 1) * (n - 2)) as real;
    assert pairs > 0.0;
    assert sum / pairs * pairs == sum;
  }

  method Normalize(between: array<real>)
    modifies between
    ensures forall v :: 0 <= v < between.Length ==> Normal(between.Length, old(between[v]), between[v])
  {
    var n := between.Length;
    if n <= 2 { return; }
    hide Normal;
    for i := 0 to n
      invariant forall v :: 0 <= v < i ==> Normal(n, old(between[v]), between[v])
      invariant forall v :: i <= v < n ==> between[v] == old(between[v])
    {
      DividedIsNormal(n, between[i]);
      between[i] := between[i] / ((n - 1) as real * (n - 2) as real);
    }
  }
}
