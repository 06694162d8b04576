/** Hop counts and origins of one message's receivers, resolved over the observed parent of
    every receiver. Parents may be missing, point outside the receivers or form cycles.
 */
module HopResolve {
  import opened Model

  datatype Link = EagerLink | LazyLink | UnknownLink

  datatype Source = Eager | Lazy | UnknownSource

  datatype Node = Node(parent: ID, link: Link)

  // ------------------------------------------------------------- definition

  // The parent chain of id reaches the publisher in exactly k steps.
  ghost predicate ReachesIn(nodes: map<ID, Node>, publisher: ID, id: ID, k: nat)
    decreases k
  {
    && id in nodes && k >= 1
    && if nodes[id].parent == publisher then k == 1 else ReachesIn(nodes, publisher, nodes[id].parent, k - 1)
  }

  // A chain of k links that are all eager; a chain of k links one of which is lazy.
  ghost predicate AllEager(nodes: map<ID, Node>, publisher: ID, id: ID, k: nat)
    decreases k
  {
    && ReachesIn(nodes, publisher, id, k) && nodes[id].link.EagerLink?
    && (nodes[id].parent != publisher ==> AllEager(nodes, publisher, nodes[id].parent, k - 1))
  }

  ghost predicate SomeLazy(nodes: map<ID, Node>, publisher: ID, id: ID, k: nat)
    decreases k
  {
    && ReachesIn(nodes, publisher, id, k)
    && (nodes[id].link.LazyLink? || (nodes[id].parent != publisher && SomeLazy(nodes, publisher, nodes[id].parent, k - 1)))
  }

  ghost predicate HasLazy(nodes: map<ID, Node>, publisher: ID, id: ID) { exists k: nat :: SomeLazy(nodes, publisher, id, k) }

  ghost predicate HasEager(nodes: map<ID, Node>, publisher: ID, id: ID) { exists k: nat :: AllEager(nodes, publisher, id, k) }

  ghost predicate HasHop(nodes: map<ID, Node>, publisher: ID, id: ID, hop: Option<nat>) {
    forall k: nat :: hop == Some(k) <==> ReachesIn(nodes, publisher, id, k)
  }

  /** What a receiver's result must be. */
  ghost predicate Right(nodes: map<ID, Node>, publisher: ID, id: ID, hop: Option<nat>, source: Source) {
    && HasHop(nodes, publisher, id, hop)
    && (source.Lazy? <==> HasLazy(nodes, publisher, id))
    && (source.Eager? <==> HasEager(nodes, publisher, id))
  }

  lemma {:induction false} HopIsUnique(nodes: map<ID, Node>, publisher: ID, id: ID, j: nat, k: nat)
    requires ReachesIn(nodes, publisher, id, j) && ReachesIn(nodes, publisher, id, k)
    ensures j == k
    decreases k
  {
    if nodes[id].parent != publisher { HopIsUnique(nodes, publisher, nodes[id].parent, j - 1, k - 1); }
  }

  // ----------------------------------------------------------------- cycles

  // n steps from x lead to y without meeting the publisher.
  ghost predicate Leads(nodes: map<ID, Node>, publisher: ID, x: ID, y: ID, n: nat)
    decreases n
  {
    if n == 0 then x == y
    else x in nodes && nodes[x].parent != publisher && Leads(nodes, publisher, nodes[x].parent, y, n - 1)
  }

  lemma {:induction false} LeadsFurther(nodes: map<ID, Node>, publisher: ID, x: ID, y: ID, n: nat)
    requires Leads(nodes, publisher, x, y, n) && y in nodes && nodes[y].parent != publisher
    ensures Leads(nodes, publisher, x, nodes[y].parent, n + 1)
    decreases n
  {
    if n > 0 { LeadsFurther(nodes, publisher, nodes[x].parent, y, n - 1); }
  }

  lemma {:induction false} ChainPasses(nodes: map<ID, Node>, publisher: ID, x: ID, y: ID, n: nat, k: nat)
    requires Leads(nodes, publisher, x, y, n) && ReachesIn(nodes, publisher, x, k)
    ensures k > n && ReachesIn(nodes, publisher, y, k - n)
    decreases n
  {
    if n > 0 { ChainPasses(nodes, publisher, nodes[x].parent, y, n - 1, k - 1); }
  }

  /** On a cycle no chain ever reaches the publisher. */
  lemma CycleIsUntraced(nodes: map<ID, Node>, publisher: ID, x: ID, n: nat)
    requires n >= 1 && Leads(nodes, publisher, x, x, n)
    ensures forall k: nat :: !ReachesIn(nodes, publisher, x, k)
  {
    forall k: nat ensures !ReachesIn(nodes, publisher, x, k) {
      if ReachesIn(nodes, publisher, x, k) {
        ChainPasses(nodes, publisher, x, x, n, k);
        HopIsUnique(nodes, publisher, x, k, k - n);
      }
    }
  }

  // ------------------------------------------------------------ one receiver

  function HopFrom(parentHop: Option<nat>): Option<nat> { if parentHop.Some? then Some(parentHop.value + 1) else None }

  function SourceFrom(link: Link, parentHop: Option<nat>, parentSource: Source): Source {
    if parentHop.Some? && (link.LazyLink? || parentSource.Lazy?) then Lazy
    else if link.EagerLink? && parentSource.Eager? then Eager
    else UnknownSource
  }

  lemma FromPublisher(nodes: map<ID, Node>, publisher: ID, id: ID)
    requires id in nodes && nodes[id].parent == publisher
    ensures Right(nodes, publisher, id, Some(1), SourceFrom(nodes[id].link, Some(0), Eager))
  {
    assert ReachesIn(nodes, publisher, id, 1);
    assert SomeLazy(nodes, publisher, id, 1) <==> nodes[id].link.LazyLink?;
    assert AllEager(nodes, publisher, id, 1) <==> nodes[id].link.EagerLink?;
  }

  lemma HopStep(nodes: map<ID, Node>, publisher: ID, id: ID, hop: Option<nat>)
    requires id in nodes && nodes[id].parent != publisher && HasHop(nodes, publisher, nodes[id].parent, hop)
    ensures HasHop(nodes, publisher, id, HopFrom(hop))
  {
    forall k: nat ensures HopFrom(hop) == Some(k) <==> ReachesIn(nodes, publisher, id, k) {
      if k >= 1 { assert hop == Some(k - 1) <==> ReachesIn(nodes, publisher, nodes[id].parent, k - 1); }
    }
  }

  // One more link: lazy if it is, or if the rest is.
  lemma LazyStep(nodes: map<ID, Node>, publisher: ID, id: ID, hop: Option<nat>)
    requires id in nodes && nodes[id].parent != publisher && HasHop(nodes, publisher, nodes[id].parent, hop)
    ensures HasLazy(nodes, publisher, id) <==> hop.Some? && (nodes[id].link.LazyLink? || HasLazy(nodes, publisher, nodes[id].parent))
  {
    var p := nodes[id].parent;
    if HasLazy(nodes, publisher, id) {
      var k: nat :| SomeLazy(nodes, publisher, id, k);
      assert ReachesIn(nodes, publisher, p, k - 1) && hop == Some(k - 1);
      assert nodes[id].link.LazyLink? || SomeLazy(nodes, publisher, p, k - 1);
    }
    if hop.Some? {
      var k := hop.value;
      assert ReachesIn(nodes, publisher, p, k) && ReachesIn(nodes, publisher, id, k + 1);
      if HasLazy(nodes, publisher, p) {
        var j: nat :| SomeLazy(nodes, publisher, p, j);
        HopIsUnique(nodes, publisher, p, j, k);
      }
      assert nodes[id].link.LazyLink? || HasLazy(nodes, publisher, p) ==> SomeLazy(nodes, publisher, id, k + 1);
    }
  }

  lemma EagerStep(nodes: map<ID, Node>, publisher: ID, id: ID)
    requires id in nodes && nodes[id].parent != publisher
    ensures HasEager(nodes, publisher, id) <==> nodes[id].link.EagerLink? && HasEager(nodes, publisher, nodes[id].parent)
  {
    var p := nodes[id].parent;
    if HasEager(nodes, publisher, id) {
      var k: nat :| AllEager(nodes, publisher, id, k);
      assert AllEager(nodes, publisher, p, k - 1);
    }
    if nodes[id].link.EagerLink? && HasEager(nodes, publisher, p) {
      var k: nat :| AllEager(nodes, publisher, p, k);
      assert AllEager(nodes, publisher, id, k + 1);
    }
  }

  lemma NotBoth(nodes: map<ID, Node>, publisher: ID, id: ID, hop: Option<nat>)
    requires HasEager(nodes, publisher, id) && HasHop(nodes, publisher, id, hop)
    ensures hop.Some? && !HasLazy(nodes, publisher, id)
  {
    var k: nat :| AllEager(nodes, publisher, id, k);
    assert hop == Some(k);
    if HasLazy(nodes, publisher, id) {
      var j: nat :| SomeLazy(nodes, publisher, id, j);
      HopIsUnique(nodes, publisher, id, j, k);
      EagerIsNotLazy(nodes, publisher, id, k);
    }
  }

  lemma FromParent(nodes: map<ID, Node>, publisher: ID, id: ID, hop: Option<nat>, source: Source)
    requires id in nodes && nodes[id].parent != publisher && Right(nodes, publisher, nodes[id].parent, hop, source)
    ensures Right(nodes, publisher, id, HopFrom(hop), SourceFrom(nodes[id].link, hop, source))
  {
    hide HasHop, HasLazy, HasEager;
    HopStep(nodes, publisher, id, hop);
    LazyStep(nodes, publisher, id, hop);
    EagerStep(nodes, publisher, id);
    if source.Eager? { NotBoth(nodes, publisher, nodes[id].parent, hop); }
  }

  lemma {:induction false} EagerIsNotLazy(nodes: map<ID, Node>, publisher: ID, id: ID, k: nat)
    requires AllEager(nodes, publisher, id, k)
    ensures !SomeLazy(nodes, publisher, id, k)
    decreases k
  {
    if nodes[id].parent != publisher { EagerIsNotLazy(nodes, publisher, nodes[id].parent, k - 1); }
  }

  lemma Untraced(nodes: map<ID, Node>, publisher: ID, id: ID, link: Link)
    requires forall k: nat :: !ReachesIn(nodes, publisher, id, k)
    ensures Right(nodes, publisher, id, None, SourceFrom(link, None, UnknownSource))
  {
  }

  // Everybody being visited leads here: the visits form one parent chain.
  ghost predicate Pursued(nodes: map<ID, Node>, publisher: ID, visiting: set<ID>, id: ID) {
    forall v :: v in visiting ==> LeadsTo(nodes, publisher, v, id)
  }

  ghost predicate LeadsTo(nodes: map<ID, Node>, publisher: ID, v: ID, id: ID) {
    exists n: nat :: n >= 1 && Leads(nodes, publisher, v, id, n)
  }

  // One more step of the chain that is being visited.
  lemma Follow(nodes: map<ID, Node>, publisher: ID, visiting: set<ID>, id: ID)
    requires id in nodes && nodes[id].parent != publisher && Pursued(nodes, publisher, visiting, id)
    ensures Pursued(nodes, publisher, visiting + {id}, nodes[id].parent)
  {
    var p := nodes[id].parent;
    assert Leads(nodes, publisher, p, p, 0);
    assert Leads(nodes, publisher, id, p, 1);
    forall v | v in visiting ensures LeadsTo(nodes, publisher, v, p) {
      assert LeadsTo(nodes, publisher, v, id);
      var n: nat :| n >= 1 && Leads(nodes, publisher, v, id, n);
      LeadsFurther(nodes, publisher, v, id, n);
    }
  }

  lemma Cycle(nodes: map<ID, Node>, publisher: ID, visiting: set<ID>, id: ID)
    requires id in nodes && nodes[id].parent != publisher && nodes[id].parent in visiting + {id}
    requires Pursued(nodes, publisher, visiting, id)
    ensures forall k: nat :: !ReachesIn(nodes, publisher, id, k)
  {
    var p := nodes[id].parent;
    var n: nat := 0;
    if p == id {
      assert Leads(nodes, publisher, id, id, 0);
    } else {
      assert LeadsTo(nodes, publisher, p, id);
      n :| n >= 1 && Leads(nodes, publisher, p, id, n);
    }
    assert Leads(nodes, publisher, id, id, n + 1);
    CycleIsUntraced(nodes, publisher, id, n + 1);
  }

  // ---------------------------------------------------------------- resolver

  // What has been resolved so far is right.
  ghost predicate Table(
    nodes: map<ID, Node>, publisher: ID, hops: map<ID, Option<nat>>, sources: map<ID, Source>, visiting: set<ID>, resolved: set<ID>)
  {
    && hops.Keys == sources.Keys == nodes.Keys && resolved <= nodes.Keys && visiting <= nodes.Keys
    && forall id :: id in resolved ==> Right(nodes, publisher, id, hops[id], sources[id])
  }

  lemma Visited(
    nodes: map<ID, Node>, publisher: ID, hops: map<ID, Option<nat>>, sources: map<ID, Source>, visiting: set<ID>, resolved: set<ID>, id: ID)
    requires Table(nodes, publisher, hops, sources, visiting, resolved) && id in nodes
    ensures Table(nodes, publisher, hops, sources, visiting + {id}, resolved)
    ensures id !in visiting ==> nodes.Keys - (visiting + {id}) < nodes.Keys - visiting
  {
    hide Right;
    if id !in visiting { assert id in nodes.Keys - visiting; }
  }

  lemma Recorded(
    nodes: map<ID, Node>, publisher: ID, hops: map<ID, Option<nat>>, sources: map<ID, Source>, visiting: set<ID>, resolved: set<ID>, id: ID,
    hop: Option<nat>, source: Source)
    requires Table(nodes, publisher, hops, sources, visiting, resolved) && id in nodes && Right(nodes, publisher, id, hop, source)
    ensures Table(nodes, publisher, hops[id := hop], sources[id := source], visiting - {id}, resolved + {id})
  {
    hide Right;
  }

  class Resolver {
    const nodes: map<ID, Node>
    const publisher: ID
    var hops: map<ID, Option<nat>>
    var sources: map<ID, Source>
    var visiting: set<ID>
    var resolved: set<ID>

    ghost predicate Valid()
      reads this
    {
      Table(nodes, publisher, hops, sources, visiting, resolved)
    }

    constructor (receivers: map<ID, Node>, p: ID)
      ensures Valid() && nodes == receivers && publisher == p && visiting == {} && resolved == {}
    {
      nodes, publisher := receivers, p;
      hops := map id | id in receivers :: None;
      sources := map id | id in receivers :: UnknownSource;
      visiting, resolved := {}, {};
    }

    /** The recursion follows parents and stops at whatever is being visited already. It ends
        on every parent map, and what it resolves is right. */
    method Resolve(id: ID)
      requires Valid() && id in nodes && Pursued(nodes, publisher, visiting, id)
      modifies this
      ensures Valid() && visiting == old(visiting) && old(resolved) <= resolved
      ensures id in resolved || id in visiting
      decreases nodes.Keys - visiting
    {
      hide Right, Pursued;
      if id in resolved || id in visiting { return; }
      ghost var before := visiting;
      Visited(nodes, publisher, hops, sources, visiting, resolved, id);
      visiting := visiting + {id};
      var node := nodes[id];
      var parentSource, parentHop := UnknownSource, None;
      if node.parent == publisher {
        parentHop, parentSource := Some(0), Eager;
        FromPublisher(nodes, publisher, id);
      } else if node.parent in nodes && node.parent !in visiting {
        Follow(nodes, publisher, before, id);
        Resolve(node.parent);
        parentHop, parentSource := hops[node.parent], sources[node.parent];
        FromParent(nodes, publisher, id, parentHop, parentSource);
      } else {
        if node.parent in visiting { Cycle(nodes, publisher, before, id); }
        Untraced(nodes, publisher, id, node.link);
      }
      Recorded(nodes, publisher, hops, sources, visiting, resolved, id, HopFrom(parentHop), SourceFrom(node.link, parentHop, parentSource));
      assert before + {id} - {id} == before;
      hops := hops[id := HopFrom(parentHop)];
      sources := sources[id := SourceFrom(node.link, parentHop, parentSource)];
      visiting := visiting - {id};
      resolved := resolved + {id};
    }

    /** Every receiver, in any order. */
    method ResolveAll()
      requires Valid() && visiting == {}
      modifies this
      ensures Valid() && resolved == nodes.Keys
    {
      var todo := nodes.Keys;
      while todo != {}
        invariant Valid() && visiting == {} && todo <= nodes.Keys && nodes.Keys - todo <= resolved
        decreases todo
      {
        var id :| id in todo;
        Resolve(id);
        todo := todo - {id};
      }
    }
  }
}
