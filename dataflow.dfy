/**
 * The reaching-definitions equations that get_graph (my_php_listener.py)
 * iterates to a fixed point: a node's IN is the OR of its predecessors' OUT
 * (0 without predecessors) and its OUT is `gen | (IN & ~kill)`.
 */
module Dataflow {
  import opened Masks
  import opened CodeNodes

  type Edge = (nat, nat)

  /** The OR of the OUT masks of node `k`'s predecessors. */
  function InOf(nodes: seq<CodeNode>, edges: set<Edge>, k: nat): Mask {
    set j, b | 0 <= j < |nodes| && (j, k) in edges && b in nodes[j].outset :: b
  }

  /** The transfer function `gen | (in & ~kill)`. */
  function Transfer(cn: CodeNode, inset: Mask): Mask {
    cn.gen + (inset - cn.kill)
  }

  /** Every node satisfies both equations. */
  ghost predicate Solved(nodes: seq<CodeNode>, edges: set<Edge>) {
    forall k :: 0 <= k < |nodes| ==>
      nodes[k].inset == InOf(nodes, edges, k) && nodes[k].outset == Transfer(nodes[k], nodes[k].inset)
  }

  /** No OUT holds more than its equation gives: the state the iteration starts from and keeps. */
  ghost predicate BelowTransfer(nodes: seq<CodeNode>, edges: set<Edge>) {
    forall k :: 0 <= k < |nodes| ==> nodes[k].outset <= Transfer(nodes[k], InOf(nodes, edges, k))
  }

  /** gen, kill and OUT use only the bits `0 .. bound - 1`. */
  ghost predicate MasksBelow(nodes: seq<CodeNode>, bound: nat) {
    forall k :: 0 <= k < |nodes| ==>
      nodes[k].gen <= Below(bound) && nodes[k].kill <= Below(bound) && nodes[k].outset <= Below(bound)
  }

  /** `b` differs from `a` only in IN and OUT. */
  ghost predicate OnlySets(a: seq<CodeNode>, b: seq<CodeNode>) {
    |a| == |b| && forall k :: 0 <= k < |a| ==> b[k] == a[k].(inset := b[k].inset, outset := b[k].outset)
  }

  /** Each OUT of `a` is contained in the matching OUT of `b`. */
  ghost predicate OutGrows(a: seq<CodeNode>, b: seq<CodeNode>) {
    |a| == |b| && forall k :: 0 <= k < |a| ==> a[k].outset <= b[k].outset
  }

  /** The total number of OUT bits, the measure that bounds the iteration. */
  function TotalOut(nodes: seq<CodeNode>): nat {
    if |nodes| == 0 then 0 else TotalOut(nodes[..|nodes| - 1]) + |nodes[|nodes| - 1].outset|
  }

  lemma {:induction false} InOfMonotone(a: seq<CodeNode>, b: seq<CodeNode>, edges: set<Edge>, k: nat)
    requires OutGrows(a, b)
    ensures InOf(a, edges, k) <= InOf(b, edges, k)
  {
  }

  lemma {:induction false} InOfSameOut(a: seq<CodeNode>, b: seq<CodeNode>, edges: set<Edge>, k: nat)
    requires OutGrows(a, b) && OutGrows(b, a)
    ensures InOf(a, edges, k) == InOf(b, edges, k)
  {
    InOfMonotone(a, b, edges, k);
    InOfMonotone(b, a, edges, k);
  }

  lemma {:induction false} InOfBelow(nodes: seq<CodeNode>, edges: set<Edge>, k: nat, bound: nat)
    requires MasksBelow(nodes, bound)
    ensures InOf(nodes, edges, k) <= Below(bound)
  {
  }

  lemma {:induction false} StrictSubsetCard(a: set<nat>, b: set<nat>)
    requires a <= b && a != b
    ensures |a| < |b|
  {
    assert exists x :: x in b && x !in a;
    var x :| x in b && x !in a;
    SubsetCard(a, b - {x});
  }

  /** Growing OUT sets do not lower the measure, and a strictly grown one raises it. */
  lemma {:induction false} TotalOutGrows(a: seq<CodeNode>, b: seq<CodeNode>)
    requires OutGrows(a, b)
    ensures TotalOut(a) <= TotalOut(b)
    ensures (exists k :: 0 <= k < |a| && a[k].outset != b[k].outset) ==> TotalOut(a) < TotalOut(b)
  {
    if |a| > 0 {
      var n := |a| - 1;
      assert OutGrows(a[..n], b[..n]);
      TotalOutGrows(a[..n], b[..n]);
      SubsetCard(a[n].outset, b[n].outset);
      if a[n].outset != b[n].outset {
        StrictSubsetCard(a[n].outset, b[n].outset);
      }
      if exists k :: 0 <= k < |a| && a[k].outset != b[k].outset {
        var k :| 0 <= k < |a| && a[k].outset != b[k].outset;
        if k < n {
          assert a[..n][k] == a[k] && b[..n][k] == b[k];
        }
      }
    }
  }

  lemma {:induction false} TotalOutBound(nodes: seq<CodeNode>, bound: nat)
    requires MasksBelow(nodes, bound)
    ensures TotalOut(nodes) <= |nodes| * bound
  {
    if |nodes| > 0 {
      var n := |nodes| - 1;
      assert MasksBelow(nodes[..n], bound);
      TotalOutBound(nodes[..n], bound);
      MaskCardBound(nodes[n].outset, bound);
      assert TotalOut(nodes) == TotalOut(nodes[..n]) + |nodes[n].outset|;
      assert |nodes| * bound == n * bound + bound;
    }
  }

  /**
   * Replacing node `i`'s IN and OUT by `InOf` and the transfer of it keeps
   * every OUT below its equation and only adds bits.
   */
  lemma {:induction false} UpdateKeepsBelow(nodes: seq<CodeNode>, edges: set<Edge>, i: nat, bound: nat)
    requires 0 <= i < |nodes| && BelowTransfer(nodes, edges) && MasksBelow(nodes, bound)
    ensures var inset := InOf(nodes, edges, i);
            var next := nodes[i := nodes[i].(inset := inset, outset := Transfer(nodes[i], inset))];
            BelowTransfer(next, edges) && MasksBelow(next, bound) && OutGrows(nodes, next)
  {
    var inset := InOf(nodes, edges, i);
    var next := nodes[i := nodes[i].(inset := inset, outset := Transfer(nodes[i], inset))];
    assert OutGrows(nodes, next);
    forall k | 0 <= k < |next| ensures next[k].outset <= Transfer(next[k], InOf(next, edges, k)) {
      InOfMonotone(nodes, next, edges, k);
    }
    InOfBelow(nodes, edges, i, bound);
  }
}
