/**
 * Reachability in the graph, standing for networkx's `has_path` in
 * `exit_if` (my_php_listener.py).
 */
module Reach {
  import opened Masks

  type Edge = (nat, nat)

  /** `p` follows edges from its first node to its last. */
  ghost predicate IsPath(edges: set<Edge>, p: seq<nat>) {
    |p| >= 1 && forall i :: 0 <= i < |p| - 1 ==> (p[i], p[i + 1]) in edges
  }

  /** `has_path(G, a, b)`; every node reaches itself. */
  ghost predicate Reaches(edges: set<Edge>, a: nat, b: nat) {
    exists p :: IsPath(edges, p) && p[0] == a && p[|p| - 1] == b
  }

  /** The successors of `x`. */
  function Succ(edges: set<Edge>, x: nat): set<nat> {
    set e | e in edges && e.0 == x :: e.1
  }

  lemma {:induction false} ReachesStep(edges: set<Edge>, a: nat, b: nat, c: nat)
    requires Reaches(edges, a, b) && (b, c) in edges
    ensures Reaches(edges, a, c)
  {
    var p :| IsPath(edges, p) && p[0] == a && p[|p| - 1] == b;
    var q := p + [c];
    assert forall i :: 0 <= i < |q| - 1 ==> (q[i], q[i + 1]) in edges by {
      forall i | 0 <= i < |q| - 1 ensures (q[i], q[i + 1]) in edges {
        if i < |p| - 1 {
          assert q[i] == p[i] && q[i + 1] == p[i + 1];
        }
      }
    }
    assert IsPath(edges, q);
  }

  lemma ReachesSelf(edges: set<Edge>, a: nat)
    ensures Reaches(edges, a, a)
  {
    assert IsPath(edges, [a]);
  }

  /** A set that holds `a` and is closed under the edges holds everything `a` reaches. */
  lemma {:induction false} ClosedHoldsReach(edges: set<Edge>, s: set<nat>, a: nat, b: nat)
    requires a in s && forall e :: e in edges && e.0 in s ==> e.1 in s
    requires Reaches(edges, a, b)
    ensures b in s
  {
    var p :| IsPath(edges, p) && p[0] == a && p[|p| - 1] == b;
    var i := 0;
    while i < |p| - 1
      invariant 0 <= i <= |p| - 1
      invariant p[i] in s
    {
      assert (p[i], p[i + 1]) in edges;
      i := i + 1;
    }
  }

  /**
   * The nodes reachable from `src`, by a work-list search over nodes
   * `0 .. count - 1`.
   */
  method ReachableFrom(edges: set<Edge>, count: nat, src: nat) returns (reach: set<nat>)
    requires src < count && forall e :: e in edges ==> e.0 < count && e.1 < count
    ensures forall x :: x in reach <==> Reaches(edges, src, x)
  {
    reach := {src};
    var work := {src};
    ReachesSelf(edges, src);
    while work != {}
      invariant work <= reach && src in reach
      invariant forall x :: x in reach ==> x < count && Reaches(edges, src, x)
      invariant forall e :: e in edges && e.0 in reach - work ==> e.1 in reach
      decreases count - |reach|, |work|
    {
      var x :| x in work;
      var added := Succ(edges, x) - reach;
      forall y | y in added ensures Reaches(edges, src, y) {
        ReachesStep(edges, src, x, y);
      }
      MaskCardBound(reach, count);
      reach := reach + added;
      work := work - {x} + added;
      MaskCardBound(reach, count);
    }
    forall x | Reaches(edges, src, x) ensures x in reach {
      ClosedHoldsReach(edges, reach, src, x);
    }
  }
}
