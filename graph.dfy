/**
 * The control-flow graph: node handles `0 .. |nodes| - 1` in insertion order
 * (the order `nodes_iter` yields them) and a set of directed edges, together
 * with the node operation that walks it, the lazy taint resolution of
 * code_node.py.
 */
module Graphs {
  import opened Masks
  import opened DefinitionRegistry
  import opened CodeNodes
  import opened Dataflow

  /** A status as it may move during `is_tainted`: MAYBE settles, TRACKED becomes TAINTED. */
  predicate Evolves(before: Taint, after: Taint) {
    before == after ||
    (before == MaybeTainted && Settled(after)) ||
    (before == MaybeTaintedTracked && after == Tainted)
  }

  /** `after` differs from `before` at most in the nodes' taint statuses. */
  ghost predicate TaintOnly(before: seq<CodeNode>, after: seq<CodeNode>) {
    |after| == |before| &&
    forall k :: 0 <= k < |before| ==> after[k] == before[k].(tainted := after[k].tainted)
  }

  /** TRACKED or TAINTED: a status that asking the node again can only turn into TAINTED. */
  predicate Committed(t: Taint) {
    t == MaybeTaintedTracked || t == Tainted
  }

  /** The nodes with `n` marked TRACKED, as at the start of its resolution. */
  function Marked(nodes: seq<CodeNode>, n: NodeId): (m: seq<CodeNode>)
    requires n < |nodes|
    ensures |m| == |nodes| && m[n].tainted == MaybeTaintedTracked
    ensures forall k :: 0 <= k < |nodes| && k != n ==> m[k] == nodes[k]
  {
    nodes[n := nodes[n].(tainted := MaybeTaintedTracked)]
  }

  /**
   * A chain of dependencies `p[0] -> p[1] -> ...`, every link leaving a
   * MAYBE node, that ends at a TRACKED or TAINTED node.
   */
  ghost predicate TaintChain(nodes: seq<CodeNode>, dict: map<string, seq<Def>>, list: seq<NodeId>, p: seq<NodeId>) {
    |p| > 0 && (forall i :: 0 <= i < |p| ==> p[i] < |nodes|) &&
    (forall i :: 0 <= i < |p| - 1 ==> nodes[p[i]].tainted == MaybeTainted && p[i + 1] in NodeDeps(dict, list, nodes[p[i]])) &&
    Committed(nodes[p[|p| - 1]].tainted)
  }

  /** Node `y` heads such a chain, so asking it can only answer tainted. */
  ghost predicate BoundTainted(nodes: seq<CodeNode>, dict: map<string, seq<Def>>, list: seq<NodeId>, y: NodeId) {
    exists p :: TaintChain(nodes, dict, list, p) && p[0] == y
  }

  /** No node bound to be tainted in `before` is NOT_TAINTED in `after`. */
  ghost predicate KeepsBound(before: seq<CodeNode>, after: seq<CodeNode>, dict: map<string, seq<Def>>, list: seq<NodeId>) {
    |after| == |before| &&
    forall y :: 0 <= y < |before| && BoundTainted(before, dict, list, y) ==> after[y].tainted != NotTainted
  }

  /** The nodes whose status is still MAYBE_TAINTED. */
  function Maybes(nodes: seq<CodeNode>): set<NodeId> {
    set k | 0 <= k < |nodes| && nodes[k].tainted == MaybeTainted
  }

  /** A networkx DiGraph over CodeNodes. */
  class Graph {
    var nodes: seq<CodeNode>
    var edges: set<(NodeId, NodeId)>

    /** Every edge joins two nodes of the graph. */
    ghost predicate Valid()
      reads this
    {
      forall e :: e in edges ==> e.0 < |nodes| && e.1 < |nodes|
    }

    /** Every bit the registry handed out belongs to a node of this graph. */
    ghost predicate Coherent(reg: DefinitionRegister)
      reads this, reg
    {
      reg.Valid() && forall i :: 0 <= i < |reg.defsList| ==> reg.defsList[i] < |nodes|
    }

    constructor ()
      ensures Valid()
      ensures nodes == [] && edges == {}
    {
      nodes := [];
      edges := {};
    }

    /** `G.add_node(n)`: the new node gets the next handle. */
    method AddNode(cn: CodeNode) returns (h: NodeId)
      modifies this`nodes
      ensures h == |old(nodes)| && nodes == old(nodes) + [cn]
    {
      h := |nodes|;
      nodes := nodes + [cn];
    }

    /** `G.add_edge(a, b)`. */
    method AddEdge(a: NodeId, b: NodeId)
      requires a < |nodes| && b < |nodes|
      modifies this`edges
      ensures edges == old(edges) + {(a, b)}
    {
      edges := edges + {(a, b)};
    }

    /** The dependencies of node `k` under the registry's current tables. */
    function DepsOf(reg: DefinitionRegister, k: NodeId): set<NodeId>
      requires k < |nodes|
      reads this, reg
    {
      NodeDeps(reg.defsDict, reg.defsList, nodes[k])
    }

    /**
     * is_tainted on node `n`. A MAYBE node is marked TRACKED, then settles to
     * TAINTED if it has no dependencies or if any dependency reports tainted,
     * and to NOT_TAINTED otherwise; every dependency is asked, in an
     * unspecified order. A TRACKED node (one whose resolution is in progress
     * further up) becomes TAINTED at once, which is what ends a cycle. A
     * settled node is left alone. The result is `bool(status.value)`.
     */
    method IsTainted(reg: DefinitionRegister, n: NodeId) returns (r: bool)
      requires Coherent(reg) && n < |nodes|
      modifies this`nodes
      ensures TaintOnly(old(nodes), nodes)
      ensures Settled(nodes[n].tainted) && r == (nodes[n].tainted == Tainted)
      ensures forall k :: 0 <= k < |nodes| ==> Evolves(old(nodes)[k].tainted, nodes[k].tainted)
      ensures Settled(old(nodes)[n].tainted) ==> nodes == old(nodes)
      ensures old(nodes)[n].tainted == MaybeTaintedTracked ==>
        nodes == old(nodes)[n := old(nodes)[n].(tainted := Tainted)]
      ensures old(nodes)[n].tainted == MaybeTainted && old(DepsOf(reg, n)) == {} ==>
        nodes == old(nodes)[n := old(nodes)[n].(tainted := Tainted)]
      ensures old(nodes)[n].tainted == MaybeTainted && old(DepsOf(reg, n)) != {} ==>
        (forall d :: d in old(DepsOf(reg, n)) ==> Settled(nodes[d].tainted)) &&
        (r <==> exists d :: d in old(DepsOf(reg, n)) && nodes[d].tainted == Tainted)
      // cycle safety: a node bound to be tainted answers tainted, and none turns NOT_TAINTED
      ensures BoundTainted(old(nodes), reg.defsDict, reg.defsList, n) ==> r
      ensures KeepsBound(old(nodes), nodes, reg.defsDict, reg.defsList)
      // once `n` is TRACKED, a dependency that leads back to it makes it TAINTED ...
      ensures (old(nodes)[n].tainted == MaybeTainted &&
               exists d :: d in old(DepsOf(reg, n)) && BoundTainted(Marked(old(nodes), n), reg.defsDict, reg.defsList, d)) ==> r
      // ... and so does every other node on such a cycle
      ensures old(nodes)[n].tainted == MaybeTainted ==>
        forall y :: 0 <= y < |nodes| && y != n && BoundTainted(Marked(old(nodes), n), reg.defsDict, reg.defsList, y) ==>
          nodes[y].tainted != NotTainted
      // in particular a node among its own dependencies
      ensures old(nodes)[n].tainted == MaybeTainted && n in old(DepsOf(reg, n)) ==> r && nodes[n].tainted == Tainted
      decreases Maybes(nodes), 1
    {
      hide BoundTainted, KeepsBound;
      ghost var dict, list := reg.defsDict, reg.defsList;
      ghost var s0 := nodes;
      if nodes[n].tainted == MaybeTainted {
        Resolve(reg, n);
        if n in DepsOf(reg, n) {
          SelfBound(s0, n, dict, list);
        }
      } else {
        if BoundTainted(s0, dict, list, n) {
          BoundNotClean(s0, dict, list, n);
        }
        if nodes[n].tainted == MaybeTaintedTracked {
          nodes := nodes[n := nodes[n].(tainted := Tainted)];
          KeepsTaint(s0, n, dict, list);
        } else {
          KeepsSelf(s0, dict, list);
        }
      }
      r := AsBool(nodes[n].tainted);
    }

    /**
     * Two MAYBE nodes that depend on each other: asking one leaves both
     * TAINTED and answers tainted, since the second finds the first TRACKED.
     */
    method AskCycle(reg: DefinitionRegister, n: NodeId, m: NodeId) returns (r: bool)
      requires Coherent(reg) && n < |nodes| && m < |nodes| && n != m
      requires nodes[n].tainted == MaybeTainted && nodes[m].tainted == MaybeTainted
      requires m in DepsOf(reg, n) && n in DepsOf(reg, m)
      modifies this`nodes
      ensures TaintOnly(old(nodes), nodes)
      ensures r && nodes[n].tainted == Tainted && nodes[m].tainted == Tainted
    {
      CycleBound(nodes, n, m, reg.defsDict, reg.defsList);
      r := IsTainted(reg, n);
    }

    /** The MAYBE_TAINTED branch of is_tainted: mark TRACKED, ask the dependencies, settle. */
    method Resolve(reg: DefinitionRegister, n: NodeId)
      requires Coherent(reg) && n < |nodes| && nodes[n].tainted == MaybeTainted
      modifies this`nodes
      ensures TaintOnly(old(nodes), nodes)
      ensures Settled(nodes[n].tainted)
      ensures forall k :: 0 <= k < |nodes| ==> Evolves(old(nodes)[k].tainted, nodes[k].tainted)
      ensures old(DepsOf(reg, n)) == {} ==> nodes == old(nodes)[n := old(nodes)[n].(tainted := Tainted)]
      ensures old(DepsOf(reg, n)) != {} ==>
        (forall d :: d in old(DepsOf(reg, n)) ==> Settled(nodes[d].tainted)) &&
        (nodes[n].tainted == Tainted <==> exists d :: d in old(DepsOf(reg, n)) && nodes[d].tainted == Tainted)
      ensures BoundTainted(old(nodes), reg.defsDict, reg.defsList, n) ==> nodes[n].tainted == Tainted
      ensures KeepsBound(old(nodes), nodes, reg.defsDict, reg.defsList)
      ensures (exists d :: d in old(DepsOf(reg, n)) && BoundTainted(Marked(old(nodes), n), reg.defsDict, reg.defsList, d)) ==>
        nodes[n].tainted == Tainted
      ensures forall y :: 0 <= y < |nodes| && y != n && BoundTainted(Marked(old(nodes), n), reg.defsDict, reg.defsList, y) ==>
        nodes[y].tainted != NotTainted
      decreases Maybes(nodes), 1, 0
    {
      hide BoundTainted, KeepsBound, NodeDeps;
      ghost var dict, list := reg.defsDict, reg.defsList;
      ghost var s0 := nodes;
      nodes := nodes[n := nodes[n].(tainted := MaybeTaintedTracked)];
      assert nodes == Marked(s0, n);
      var deps := GetNodeDeps(reg, nodes[n]);
      DepsIgnoreTaint(dict, list, s0[n], nodes[n]);
      assert deps == old(DepsOf(reg, n));
      if deps == {} {
        KeepsSelf(nodes, dict, list);
        ResolveSettle(s0, nodes, n, deps, true, dict, list);
        SettleOnly(s0, nodes, n, Tainted);
        nodes := nodes[n := nodes[n].(tainted := Tainted)];
      } else {
        assert Maybes(nodes) <= Maybes(old(nodes));
        assert n in Maybes(old(nodes)) && n !in Maybes(nodes);
        var anyTainted := AskAll(reg, n, deps, Maybes(old(nodes)));
        ghost var mid := nodes;
        ResolveSettle(s0, mid, n, deps, anyTainted, dict, list);
        SettleOnly(s0, mid, n, if anyTainted then Tainted else NotTainted);
        nodes := nodes[n := nodes[n].(tainted := if anyTainted then Tainted else NotTainted)];
        SettleStep(mid, nodes, n, deps, anyTainted);
      }
    }

    /**
     * The `while change` loop of get_graph: sweep the nodes in order, set
     * each IN to the OR of the predecessors' current OUT and OUT to
     * `gen | (IN & ~kill)`, until a sweep changes no OUT. Started from OUT
     * sets that are below their equations (a fresh node has OUT = gen), OUT
     * only gains bits, all below `1 << bound`, so the loop ends, and it ends
     * with both equations holding at every node.
     */
    method ReachingDefinitions(ghost bound: nat)
      requires MasksBelow(nodes, bound) && BelowTransfer(nodes, edges)
      modifies this`nodes
      ensures OnlySets(old(nodes), nodes) && OutGrows(old(nodes), nodes)
      ensures Solved(nodes, edges) && MasksBelow(nodes, bound)
    {
      var change := true;
      while change
        invariant OnlySets(old(nodes), nodes) && OutGrows(old(nodes), nodes)
        invariant MasksBelow(nodes, bound) && BelowTransfer(nodes, edges)
        invariant !change ==> Solved(nodes, edges)
        decreases |nodes| * bound - TotalOut(nodes), if change then 1 else 0
      {
        TotalOutBound(nodes, bound);
        ghost var before := nodes;
        change := Sweep(bound);
        TotalOutBound(nodes, bound);
        TotalOutGrows(before, nodes);
        if !change {
          TotalOutGrows(nodes, before);
        }
      }
    }

    /**
     * One pass of `for n in self.G.nodes_iter()` in get_graph; the result is
     * the `change` flag.
     */
    method Sweep(ghost bound: nat) returns (change: bool)
      requires MasksBelow(nodes, bound) && BelowTransfer(nodes, edges)
      modifies this`nodes
      ensures OnlySets(old(nodes), nodes) && OutGrows(old(nodes), nodes)
      ensures MasksBelow(nodes, bound) && BelowTransfer(nodes, edges)
      ensures change <==> exists k :: 0 <= k < |nodes| && old(nodes)[k].outset != nodes[k].outset
      ensures !change ==> Solved(nodes, edges)
    {
      change := false;
      var i := 0;
      while i < |nodes|
        invariant 0 <= i <= |nodes|
        invariant SweepInv(old(nodes), nodes, edges, i, bound, change)
      {
        SweepStep(old(nodes), nodes, edges, i, bound, change);
        var inset := InOf(nodes, edges, i);
        var oldOut := nodes[i].outset;
        nodes := nodes[i := nodes[i].(inset := inset, outset := Transfer(nodes[i], inset))];
        change := change || oldOut != nodes[i].outset;
        i := i + 1;
      }
      SweepDone(old(nodes), nodes, edges, bound, change);
    }

    /**
     * `[d.is_tainted() for d in deps]` followed by `any`, while node `n` is
     * TRACKED: every dependency is asked, and the flag says whether one of
     * them ended TAINTED. `bound` is the MAYBE set when `n`'s resolution
     * began, which the walk keeps shrinking below.
     */
    method AskAll(reg: DefinitionRegister, n: NodeId, deps: set<NodeId>, ghost bound: set<NodeId>) returns (anyTainted: bool)
      requires Coherent(reg) && n < |nodes|
      requires forall d :: d in deps ==> d < |nodes|
      requires nodes[n].tainted == MaybeTaintedTracked
      requires Maybes(nodes) < bound
      modifies this`nodes
      ensures TaintOnly(old(nodes), nodes)
      ensures forall k :: 0 <= k < |nodes| && k != n ==> Evolves(old(nodes)[k].tainted, nodes[k].tainted)
      ensures nodes[n].tainted == MaybeTaintedTracked || nodes[n].tainted == Tainted
      ensures forall d :: d in deps ==> Settled(nodes[d].tainted)
      ensures anyTainted <==> exists d :: d in deps && nodes[d].tainted == Tainted
      ensures (exists d :: d in deps && BoundTainted(old(nodes), reg.defsDict, reg.defsList, d)) ==> anyTainted
      ensures KeepsBound(old(nodes), nodes, reg.defsDict, reg.defsList)
      decreases bound, 0
    {
      hide BoundTainted, KeepsBound, Marked, TaintOnly, Evolves, AskInv, DepsOf, NodeDeps;
      ghost var dict, list := reg.defsDict, reg.defsList;
      anyTainted := false;
      var rest := deps;
      AskStart(nodes, n, deps, dict, list);
      while rest != {}
        invariant |nodes| == |old(nodes)|
        invariant AskInv(old(nodes), nodes, n, deps, rest, anyTainted, dict, list)
        invariant Maybes(nodes) < bound
        decreases |rest|
      {
        var d :| d in rest;
        ghost var prev := nodes;
        AskDep(old(nodes), nodes, n, deps, rest, d, anyTainted, dict, list);
        var rd := IsTainted(reg, d);
        AskNext(old(nodes), prev, nodes, n, deps, rest, d, anyTainted, rd, dict, list);
        anyTainted := anyTainted || rd;
        rest := rest - {d};
      }
      AskEnd(old(nodes), nodes, n, deps, anyTainted, dict, list);
    }
  }

  /**
   * The walk over the dependencies of the TRACKED node `n` with `rest` still
   * to ask: only statuses changed, the other nodes evolved, `n` is still
   * TRACKED or TAINTED, the asked ones are settled, `any` says whether one
   * ended TAINTED and is set if one was bound to be tainted at the start,
   * and no bound node turned NOT_TAINTED.
   */
  ghost predicate AskInv(start: seq<CodeNode>, cur: seq<CodeNode>, n: NodeId, deps: set<NodeId>, rest: set<NodeId>, any: bool,
                         dict: map<string, seq<Def>>, list: seq<NodeId>) {
    rest <= deps && n < |start| && TaintOnly(start, cur) &&
    (forall d :: d in deps ==> d < |start|) &&
    (forall k :: 0 <= k < |cur| && k != n ==> Evolves(start[k].tainted, cur[k].tainted)) &&
    Committed(cur[n].tainted) &&
    (forall d :: d in deps - rest ==> Settled(cur[d].tainted)) &&
    (any <==> exists d :: d in deps - rest && cur[d].tainted == Tainted) &&
    ((exists d :: d in deps - rest && BoundTainted(start, dict, list, d)) ==> any) &&
    KeepsBound(start, cur, dict, list)
  }

  lemma {:induction false} AskStart(nodes: seq<CodeNode>, n: NodeId, deps: set<NodeId>, dict: map<string, seq<Def>>, list: seq<NodeId>)
    requires n < |nodes| && nodes[n].tainted == MaybeTaintedTracked
    requires forall d :: d in deps ==> d < |nodes|
    ensures AskInv(nodes, nodes, n, deps, deps, false, dict, list)
  {
    KeepsSelf(nodes, dict, list);
  }

  lemma {:induction false} AskDep(start: seq<CodeNode>, cur: seq<CodeNode>, n: NodeId, deps: set<NodeId>, rest: set<NodeId>, d: NodeId,
                                  any: bool, dict: map<string, seq<Def>>, list: seq<NodeId>)
    requires AskInv(start, cur, n, deps, rest, any, dict, list) && d in rest
    ensures d < |cur| && n < |cur|
  {
  }

  /** One more dependency `d` asked: the walk's invariant holds with `d` moved to the asked ones. */
  lemma {:induction false} AskNext(start: seq<CodeNode>, prev: seq<CodeNode>, cur: seq<CodeNode>, n: NodeId,
                                   deps: set<NodeId>, rest: set<NodeId>, d: NodeId, any: bool, rd: bool,
                                   dict: map<string, seq<Def>>, list: seq<NodeId>)
    requires AskInv(start, prev, n, deps, rest, any, dict, list) && d in rest
    requires TaintOnly(prev, cur)
    requires forall k :: 0 <= k < |cur| ==> Evolves(prev[k].tainted, cur[k].tainted)
    requires Settled(cur[d].tainted) && rd == (cur[d].tainted == Tainted)
    requires KeepsBound(prev, cur, dict, list)
    requires BoundTainted(prev, dict, list, d) ==> rd
    ensures AskInv(start, cur, n, deps, rest - {d}, any || rd, dict, list)
    ensures |cur| == |start| && Maybes(cur) <= Maybes(prev)
  {
    MaybesShrink(prev, cur);
    var done := deps - rest;
    assert deps - (rest - {d}) == done + {d};
    EvolvesChain(start, prev, cur, n);
    AnyStep(prev, cur, done, d, any, rd);
    AskStep(start, prev, cur, n, done, d, any, rd, dict, list);
  }

  lemma {:induction false} AskEnd(start: seq<CodeNode>, cur: seq<CodeNode>, n: NodeId, deps: set<NodeId>, any: bool,
                                  dict: map<string, seq<Def>>, list: seq<NodeId>)
    requires AskInv(start, cur, n, deps, {}, any, dict, list)
    ensures TaintOnly(start, cur)
    ensures forall k :: 0 <= k < |cur| && k != n ==> Evolves(start[k].tainted, cur[k].tainted)
    ensures cur[n].tainted == MaybeTaintedTracked || cur[n].tainted == Tainted
    ensures forall d :: d in deps ==> Settled(cur[d].tainted)
    ensures any <==> exists d :: d in deps && cur[d].tainted == Tainted
    ensures (exists d :: d in deps && BoundTainted(start, dict, list, d)) ==> any
    ensures KeepsBound(start, cur, dict, list)
  {
    assert deps - {} == deps;
  }

  /**
   * The sweep's invariant after `i` nodes: the swept nodes satisfy the OUT
   * equation, the rest are untouched, `change` says whether an OUT changed,
   * and while none did the swept INs equal the equation's.
   */
  ghost predicate SweepInv(start: seq<CodeNode>, cur: seq<CodeNode>, edges: set<Edge>, i: nat, bound: nat, change: bool) {
    i <= |cur| &&
    OnlySets(start, cur) && OutGrows(start, cur) &&
    MasksBelow(cur, bound) && BelowTransfer(cur, edges) &&
    (forall k :: i <= k < |cur| ==> cur[k] == start[k]) &&
    (forall k :: 0 <= k < i ==> cur[k].outset == Transfer(cur[k], cur[k].inset)) &&
    (change <==> exists k :: 0 <= k < i && start[k].outset != cur[k].outset) &&
    (!change ==> forall k :: 0 <= k < i ==> cur[k].inset == InOf(start, edges, k))
  }

  lemma {:induction false} SweepStep(start: seq<CodeNode>, cur: seq<CodeNode>, edges: set<Edge>, i: nat, bound: nat, change: bool)
    requires i < |cur| && SweepInv(start, cur, edges, i, bound, change)
    ensures var inset := InOf(cur, edges, i);
            var next := cur[i := cur[i].(inset := inset, outset := Transfer(cur[i], inset))];
            SweepInv(start, next, edges, i + 1, bound, change || cur[i].outset != next[i].outset)
  {
    var inset := InOf(cur, edges, i);
    var next := cur[i := cur[i].(inset := inset, outset := Transfer(cur[i], inset))];
    if !change {
      SameOutUpTo(start, cur, i);
      InOfSameOut(cur, start, edges, i);
    }
    UpdateKeepsBelow(cur, edges, i, bound);
    assert forall k :: 0 <= k < |cur| && k != i ==> next[k] == cur[k];
    assert OnlySets(start, next);
    assert OutGrows(start, next);
  }

  lemma {:induction false} SweepDone(start: seq<CodeNode>, cur: seq<CodeNode>, edges: set<Edge>, bound: nat, change: bool)
    requires SweepInv(start, cur, edges, |cur|, bound, change)
    ensures !change ==> Solved(cur, edges)
  {
    if !change {
      SameOutUpTo(start, cur, |cur|);
      forall k | 0 <= k < |cur| ensures cur[k].inset == InOf(cur, edges, k) {
        InOfSameOut(cur, start, edges, k);
      }
    }
  }

  /** With no OUT changed among the first `i` nodes and none touched after, all OUT sets agree. */
  lemma {:induction false} SameOutUpTo(a: seq<CodeNode>, b: seq<CodeNode>, i: nat)
    requires |a| == |b| && i <= |a|
    requires forall k :: i <= k < |a| ==> b[k] == a[k]
    requires !exists k :: 0 <= k < i && a[k].outset != b[k].outset
    ensures OutGrows(a, b) && OutGrows(b, a)
  {
  }

  /** One more dependency asked: the settled ones stay settled and the "any" flag follows. */
  lemma {:induction false} AnyStep(prev: seq<CodeNode>, cur: seq<CodeNode>, done: set<NodeId>, d: NodeId, anyOld: bool, rd: bool)
    requires |cur| == |prev| && d < |cur|
    requires forall k :: 0 <= k < |prev| ==> Evolves(prev[k].tainted, cur[k].tainted)
    requires forall x :: x in done ==> x < |prev| && Settled(prev[x].tainted)
    requires anyOld <==> exists x :: x in done && prev[x].tainted == Tainted
    requires Settled(cur[d].tainted) && rd == (cur[d].tainted == Tainted)
    ensures forall x :: x in done + {d} ==> Settled(cur[x].tainted)
    ensures (anyOld || rd) <==> exists x :: x in done + {d} && cur[x].tainted == Tainted
  {
    assert forall x :: x in done ==> cur[x].tainted == prev[x].tainted;
  }

  /** The final assignment of `n`'s status keeps the dependencies' verdicts. */
  lemma {:induction false} SettleStep(mid: seq<CodeNode>, fin: seq<CodeNode>, n: NodeId, deps: set<NodeId>, any: bool)
    requires n < |mid| && fin == mid[n := mid[n].(tainted := if any then Tainted else NotTainted)]
    requires forall d :: d in deps ==> d < |mid| && Settled(mid[d].tainted)
    requires any <==> exists d :: d in deps && mid[d].tainted == Tainted
    ensures forall d :: d in deps ==> Settled(fin[d].tainted)
    ensures any <==> exists d :: d in deps && fin[d].tainted == Tainted
  {
    if any {
      var d :| d in deps && mid[d].tainted == Tainted;
      assert fin[d].tainted == Tainted;
    }
  }

  /** Evolves composes (away from the node `n` being resolved). */
  lemma {:induction false} EvolvesChain(a: seq<CodeNode>, b: seq<CodeNode>, c: seq<CodeNode>, n: NodeId)
    requires |a| == |b| == |c|
    requires forall k :: 0 <= k < |a| && k != n ==> Evolves(a[k].tainted, b[k].tainted)
    requires forall k :: 0 <= k < |b| ==> Evolves(b[k].tainted, c[k].tainted)
    ensures forall k :: 0 <= k < |a| && k != n ==> Evolves(a[k].tainted, c[k].tainted)
  {
  }

  lemma {:induction false} MaybesShrink(before: seq<CodeNode>, after: seq<CodeNode>)
    requires |after| == |before|
    requires forall k :: 0 <= k < |before| ==> Evolves(before[k].tainted, after[k].tainted)
    ensures Maybes(after) <= Maybes(before)
  {
  }

  /** A node bound to be tainted is not NOT_TAINTED. */
  lemma {:induction false} BoundNotClean(nodes: seq<CodeNode>, dict: map<string, seq<Def>>, list: seq<NodeId>, y: NodeId)
    requires BoundTainted(nodes, dict, list, y)
    ensures y < |nodes| && nodes[y].tainted != NotTainted
  {
    var p :| TaintChain(nodes, dict, list, p) && p[0] == y;
    if |p| > 1 {
      assert nodes[p[0]].tainted == MaybeTainted;
    }
  }

  /** A MAYBE node bound to be tainted has a dependency bound to be tainted. */
  lemma {:induction false} ChainStep(nodes: seq<CodeNode>, dict: map<string, seq<Def>>, list: seq<NodeId>, y: NodeId) returns (d: NodeId)
    requires BoundTainted(nodes, dict, list, y) && nodes[y].tainted == MaybeTainted
    ensures d in NodeDeps(dict, list, nodes[y]) && BoundTainted(nodes, dict, list, d)
  {
    var p :| TaintChain(nodes, dict, list, p) && p[0] == y;
    assert |p| > 1;
    d := p[1];
    assert TaintChain(nodes, dict, list, p[1..]);
  }

  /** Marking a MAYBE node TRACKED turns no bound node NOT_TAINTED. */
  lemma {:induction false} MarkKeeps(nodes: seq<CodeNode>, n: NodeId, dict: map<string, seq<Def>>, list: seq<NodeId>)
    requires n < |nodes| && nodes[n].tainted == MaybeTainted
    ensures TaintOnly(nodes, Marked(nodes, n)) && KeepsBound(nodes, Marked(nodes, n), dict, list)
    ensures forall k :: 0 <= k < |nodes| && Committed(nodes[k].tainted) ==> Committed(Marked(nodes, n)[k].tainted)
  {
    forall y | 0 <= y < |nodes| && BoundTainted(nodes, dict, list, y)
      ensures Marked(nodes, n)[y].tainted != NotTainted
    {
      BoundNotClean(nodes, dict, list, y);
    }
  }

  /** A node's dependencies do not depend on its status. */
  lemma DepsIgnoreTaint(dict: map<string, seq<Def>>, list: seq<NodeId>, a: CodeNode, b: CodeNode)
    requires b == a.(tainted := b.tainted)
    ensures NodeDeps(dict, list, b) == NodeDeps(dict, list, a)
  {
    assert a.inset == b.inset && a.vars == b.vars;
  }

  /**
   * A chain of the old state still leads to a chain from the same node when
   * only statuses changed, committed nodes stayed committed and no bound
   * node became NOT_TAINTED.
   */
  lemma {:induction false} CarryChain(a: seq<CodeNode>, b: seq<CodeNode>, dict: map<string, seq<Def>>, list: seq<NodeId>, p: seq<NodeId>)
    requires TaintChain(a, dict, list, p)
    requires TaintOnly(a, b) && KeepsBound(a, b, dict, list)
    requires forall k :: 0 <= k < |a| && Committed(a[k].tainted) ==> Committed(b[k].tainted)
    ensures BoundTainted(b, dict, list, p[0])
    decreases |p|
  {
    hide NodeDeps;
    var y := p[0];
    assert BoundTainted(a, dict, list, y);
    if b[y].tainted != MaybeTainted {
      assert TaintChain(b, dict, list, [y]);
    } else {
      assert |p| > 1;
      assert TaintChain(a, dict, list, p[1..]);
      CarryChain(a, b, dict, list, p[1..]);
      var q :| TaintChain(b, dict, list, q) && q[0] == p[1];
      DepsIgnoreTaint(dict, list, a[y], b[y]);
      assert TaintChain(b, dict, list, [y] + q);
    }
  }

  lemma {:induction false} Carry(a: seq<CodeNode>, b: seq<CodeNode>, dict: map<string, seq<Def>>, list: seq<NodeId>, y: NodeId)
    requires BoundTainted(a, dict, list, y)
    requires TaintOnly(a, b) && KeepsBound(a, b, dict, list)
    requires forall k :: 0 <= k < |a| && Committed(a[k].tainted) ==> Committed(b[k].tainted)
    ensures BoundTainted(b, dict, list, y)
  {
    var p :| TaintChain(a, dict, list, p) && p[0] == y;
    CarryChain(a, b, dict, list, p);
  }

  /**
   * One more dependency `d` asked during `n`'s resolution: the bound nodes of
   * the start stay clear of NOT_TAINTED, and `d` answers tainted if it was
   * bound at the start.
   */
  lemma {:induction false} AskStep(start: seq<CodeNode>, prev: seq<CodeNode>, cur: seq<CodeNode>, n: NodeId,
                                   done: set<NodeId>, d: NodeId, any: bool, rd: bool,
                                   dict: map<string, seq<Def>>, list: seq<NodeId>)
    requires n < |start| && d < |start| && TaintOnly(start, prev) && TaintOnly(prev, cur)
    requires forall k :: 0 <= k < |start| && k != n ==> Evolves(start[k].tainted, prev[k].tainted)
    requires Committed(prev[n].tainted)
    requires KeepsBound(start, prev, dict, list) && KeepsBound(prev, cur, dict, list)
    requires BoundTainted(prev, dict, list, d) ==> rd
    requires (exists x :: x in done && BoundTainted(start, dict, list, x)) ==> any
    ensures KeepsBound(start, cur, dict, list)
    ensures (exists x :: x in done + {d} && BoundTainted(start, dict, list, x)) ==> any || rd
  {
    assert forall k :: 0 <= k < |start| && Committed(start[k].tainted) ==> Committed(prev[k].tainted);
    forall y | 0 <= y < |start| && BoundTainted(start, dict, list, y)
      ensures cur[y].tainted != NotTainted
    {
      Carry(start, prev, dict, list, y);
    }
    if BoundTainted(start, dict, list, d) {
      Carry(start, prev, dict, list, d);
    }
  }

  /** Marking, asking and settling `n` change nothing but statuses. */
  lemma {:induction false} SettleOnly(s0: seq<CodeNode>, mid: seq<CodeNode>, n: NodeId, t: Taint)
    requires n < |s0| && TaintOnly(Marked(s0, n), mid)
    ensures TaintOnly(s0, mid[n := mid[n].(tainted := t)])
  {
  }

  lemma {:induction false} KeepsSelf(nodes: seq<CodeNode>, dict: map<string, seq<Def>>, list: seq<NodeId>)
    ensures KeepsBound(nodes, nodes, dict, list)
  {
    forall y | 0 <= y < |nodes| && BoundTainted(nodes, dict, list, y)
      ensures nodes[y].tainted != NotTainted
    {
      BoundNotClean(nodes, dict, list, y);
    }
  }

  lemma {:induction false} KeepsTaint(nodes: seq<CodeNode>, n: NodeId, dict: map<string, seq<Def>>, list: seq<NodeId>)
    requires n < |nodes|
    ensures KeepsBound(nodes, nodes[n := nodes[n].(tainted := Tainted)], dict, list)
  {
    forall y | 0 <= y < |nodes| && BoundTainted(nodes, dict, list, y)
      ensures nodes[n := nodes[n].(tainted := Tainted)][y].tainted != NotTainted
    {
      BoundNotClean(nodes, dict, list, y);
    }
  }

  /** With `n` TRACKED, a MAYBE dependency `m` that depends back on `n` is bound to be tainted. */
  lemma {:induction false} CycleBound(nodes: seq<CodeNode>, n: NodeId, m: NodeId, dict: map<string, seq<Def>>, list: seq<NodeId>)
    requires n < |nodes| && m < |nodes| && n != m && nodes[m].tainted == MaybeTainted
    requires n in NodeDeps(dict, list, nodes[m])
    ensures BoundTainted(Marked(nodes, n), dict, list, m)
  {
    assert TaintChain(Marked(nodes, n), dict, list, [m, n]);
  }

  /** With `n` itself TRACKED, a dependency on itself is bound to be tainted. */
  lemma {:induction false} SelfBound(nodes: seq<CodeNode>, n: NodeId, dict: map<string, seq<Def>>, list: seq<NodeId>)
    requires n < |nodes| && n in NodeDeps(dict, list, nodes[n])
    ensures BoundTainted(Marked(nodes, n), dict, list, n)
  {
    assert TaintChain(Marked(nodes, n), dict, list, [n]);
  }

  /**
   * The settling of `n` after its dependencies were asked from the marked
   * state: a node bound in the state before the mark ends TAINTED if it is
   * `n` and not NOT_TAINTED otherwise, and the other nodes bound once `n`
   * was marked stay clear of NOT_TAINTED.
   */
  lemma {:induction false} ResolveSettle(s0: seq<CodeNode>, mid: seq<CodeNode>, n: NodeId, deps: set<NodeId>, any: bool,
                                         dict: map<string, seq<Def>>, list: seq<NodeId>)
    requires n < |s0| && s0[n].tainted == MaybeTainted && deps == NodeDeps(dict, list, s0[n])
    requires TaintOnly(Marked(s0, n), mid) && KeepsBound(Marked(s0, n), mid, dict, list)
    requires (exists d :: d in deps && BoundTainted(Marked(s0, n), dict, list, d)) ==> any
    ensures var fin := mid[n := mid[n].(tainted := if any then Tainted else NotTainted)];
      (BoundTainted(s0, dict, list, n) ==> any) &&
      KeepsBound(s0, fin, dict, list) &&
      forall y :: 0 <= y < |fin| && y != n && BoundTainted(Marked(s0, n), dict, list, y) ==> fin[y].tainted != NotTainted
  {
    var s1 := Marked(s0, n);
    var fin := mid[n := mid[n].(tainted := if any then Tainted else NotTainted)];
    MarkKeeps(s0, n, dict, list);
    if BoundTainted(s0, dict, list, n) {
      var d := ChainStep(s0, dict, list, n);
      Carry(s0, s1, dict, list, d);
    }
    forall y | 0 <= y < |s0| && BoundTainted(s0, dict, list, y)
      ensures fin[y].tainted != NotTainted
    {
      if y != n {
        Carry(s0, s1, dict, list, y);
      }
    }
  }
}
