/**
 * From a solved graph to feature rows (transformation/transform.py): each
 * node's dependency closure, the functions and constants the closure
 * mentions as `func_<f>` / `const_<c>` features, its taint verdict, and the
 * vulnerability label from a table of known flaw lines.
 *
 * `deps[k]` is `get_node_deps()` of node `k`. It depends on the node's IN
 * set, its variables and the registry only, none of which the transform
 * changes (`is_tainted` only moves statuses), so it is read once up front.
 */
module Transform {
  import opened Wrappers
  import opened Masks
  import opened DefinitionRegistry
  import opened CodeNodes
  import opened Graphs

  /** Every dependency is a node of the graph. */
  predicate Bounded(deps: seq<set<NodeId>>) {
    forall k, d :: 0 <= k < |deps| && d in deps[k] ==> d < |deps|
  }

  predicate InRange(deps: seq<set<NodeId>>, s: set<NodeId>) {
    forall x :: x in s ==> x < |deps|
  }

  /** `set().union(*(deps[x] for x in s))`. */
  function DepsUnion(deps: seq<set<NodeId>>, s: set<NodeId>): (r: set<NodeId>)
    requires InRange(deps, s)
    ensures forall d :: d in r <==> exists x :: x in s && d in deps[x]
  {
    set x, d | x in s && d in deps[x] :: d
  }

  /** Every dependency of a member of `c` is in `c`. */
  ghost predicate Closed(deps: seq<set<NodeId>>, c: set<NodeId>) {
    forall x :: x in c ==> x < |deps| && deps[x] <= c
  }

  function Universe(deps: seq<set<NodeId>>): set<NodeId> {
    Below(|deps|)
  }

  /**
   * The reference definition of a dependency closure: add the dependencies
   * of everything so far until nothing new appears. It is the least closed
   * set containing `s`.
   */
  ghost function Closure(deps: seq<set<NodeId>>, s: set<NodeId>): (r: set<NodeId>)
    requires Bounded(deps) && InRange(deps, s)
    ensures s <= r && Closed(deps, r) && InRange(deps, r)
    ensures forall c :: Closed(deps, c) && s <= c ==> r <= c
    decreases Universe(deps) - s
  {
    var next := s + DepsUnion(deps, s);
    if next == s then s
    else
      assert Universe(deps) - next < Universe(deps) - s by {
        var d :| d in next && d !in s;
        assert d in Universe(deps) - s;
      }
      Closure(deps, next)
  }

  /**
   * get_node_with_dependencies: collect the dependencies of `nodes`; stop
   * when none lies outside `nodes`, or when all are already tracked;
   * otherwise track them and go on from them. Every call tracks a node it
   * did not track before, which is why the recursion ends. Started from an
   * empty `track`, the result is the closure of `nodes`.
   */
  method GetNodeWithDependencies(deps: seq<set<NodeId>>, track: set<NodeId>, nodes: set<NodeId>) returns (r: set<NodeId>)
    requires Bounded(deps) && InRange(deps, track + nodes)
    ensures track + nodes <= r && InRange(deps, r)
    ensures DepsUnion(deps, nodes) <= nodes ==> r == track + nodes
    ensures (forall x :: x in track - nodes ==> deps[x] <= track + nodes) ==> Closed(deps, r)
    ensures forall c :: Closed(deps, c) && track + nodes <= c ==> r <= c
    decreases Universe(deps) - track
  {
    var all := CollectDeps(deps, nodes);
    var add := all - nodes;
    if add <= track {
      if forall x :: x in track - nodes ==> deps[x] <= track + nodes {
        ClosedWhenDone(deps, track, nodes, all);
      }
      if add == {} {
        return track + nodes;
      }
      return track + nodes + add;
    }
    var tracked := track + nodes + add;
    assert Universe(deps) - tracked < Universe(deps) - track by {
      var a :| a in add && a !in track;
      assert a in Universe(deps) - track;
    }
    r := GetNodeWithDependencies(deps, tracked, add);
  }

  /** The loop of get_node_with_dependencies that unions the nodes' dependencies. */
  method CollectDeps(deps: seq<set<NodeId>>, nodes: set<NodeId>) returns (add: set<NodeId>)
    requires InRange(deps, nodes)
    ensures add == DepsUnion(deps, nodes)
  {
    add := {};
    var rest := nodes;
    while rest != {}
      invariant rest <= nodes && add == DepsUnion(deps, nodes - rest)
      decreases |rest|
    {
      var n :| n in rest;
      assert nodes - (rest - {n}) == (nodes - rest) + {n};
      add := add + deps[n];
      rest := rest - {n};
    }
    assert nodes - rest == nodes;
  }

  /** When every dependency of `nodes` is tracked, `track + nodes` is closed. */
  lemma {:induction false} ClosedWhenDone(deps: seq<set<NodeId>>, track: set<NodeId>, nodes: set<NodeId>, all: set<NodeId>)
    requires InRange(deps, track + nodes) && all == DepsUnion(deps, nodes) && all - nodes <= track
    requires forall x :: x in track - nodes ==> deps[x] <= track + nodes
    ensures Closed(deps, track + nodes)
  {
    forall x | x in track + nodes ensures deps[x] <= track + nodes {
      if x in nodes {
        forall d | d in deps[x] ensures d in track + nodes {
          assert d in all;
        }
      }
    }
  }

  /** The closure from an empty track is the reference closure. */
  lemma {:induction false} ClosureOfOne(deps: seq<set<NodeId>>, s: set<NodeId>, r: set<NodeId>)
    requires Bounded(deps) && InRange(deps, s)
    requires s <= r && Closed(deps, r)
    requires forall c :: Closed(deps, c) && s <= c ==> r <= c
    ensures r == Closure(deps, s)
  {
    var cl := Closure(deps, s);
    assert r <= cl;
    assert cl <= r;
  }

  /** A `(file, line)` pair the flaw table lists. */
  predicate FlawAt(flaw: map<string, seq<int>>, x: Loc) {
    x.file.Some? && x.file.value in flaw && x.line.Some? && x.line.value in flaw[x.file.value]
  }

  /** The pairs of `locs` the flaw table lists, in order. */
  function Flagged(flaw: map<string, seq<int>>, locs: seq<Loc>): (r: seq<Loc>)
    ensures forall x :: x in r <==> x in locs && FlawAt(flaw, x)
  {
    if |locs| == 0 then []
    else (if FlawAt(flaw, locs[0]) then [locs[0]] else []) + Flagged(flaw, locs[1..])
  }

  /** is_vulnerable: some pair's file is a key of the table and its line is in that key's list. */
  function IsVulnerable(flaw: map<string, seq<int>>, locs: seq<Loc>): (r: bool)
    ensures r <==> exists x :: x in locs && FlawAt(flaw, x)
  {
    var f := Flagged(flaw, locs);
    assert f != [] ==> f[0] in f;
    f != []
  }

  /** The feature names of a closure: `func_<f>` for its functions, `const_<c>` for its constants. */
  function FeatureNames(nodes: seq<CodeNode>, c: set<NodeId>): (r: set<string>)
    requires forall x :: x in c ==> x < |nodes|
    ensures r == {} <==> forall x :: x in c ==> nodes[x].funcs == {} && nodes[x].consts == {}
  {
    var fs := set x, f | x in c && f in nodes[x].funcs :: "func_" + f;
    var cs := set x, k | x in c && k in nodes[x].consts :: "const_" + k;
    assert forall x :: x in c && nodes[x].funcs != {} ==> fs != {} by {
      forall x | x in c && nodes[x].funcs != {} ensures fs != {} {
        var f :| f in nodes[x].funcs;
        assert "func_" + f in fs;
      }
    }
    assert forall x :: x in c && nodes[x].consts != {} ==> cs != {} by {
      forall x | x in c && nodes[x].consts != {} ensures cs != {} {
        var k :| k in nodes[x].consts;
        assert "const_" + k in cs;
      }
    }
    fs + cs
  }

  /** One feature row: `file_name`, `line`, `vulnerable`, `tainted` and the features, each worth 1. */
  datatype Row = Row(file: Option<string>, line: Option<int>, vulnerable: bool, tainted: bool, features: set<string>)

  /** The dependency table of a graph under a registry. */
  ghost function DepGraph(nodes: seq<CodeNode>, dict: map<string, seq<Def>>, list: seq<NodeId>): seq<set<NodeId>> {
    seq(|nodes|, k requires 0 <= k < |nodes| => NodeDeps(dict, list, nodes[k]))
  }

  /** The source's `(n.file, n.line)` pairs of a set of nodes, in some order. */
  method PathLocs(nodes: seq<CodeNode>, c: set<NodeId>) returns (locs: seq<Loc>)
    requires forall x :: x in c ==> x < |nodes|
    ensures forall l :: l in locs <==> exists x :: x in c && nodes[x].loc == l
  {
    locs := [];
    var rest := c;
    while rest != {}
      invariant rest <= c
      invariant forall l :: l in locs <==> exists x :: x in c - rest && nodes[x].loc == l
      decreases |rest|
    {
      var x :| x in rest;
      locs := locs + [nodes[x].loc];
      rest := rest - {x};
    }
  }

  /** Node `k`'s closure touches a flaw line. */
  ghost predicate Vulnerable(deps: seq<set<NodeId>>, nodes: seq<CodeNode>, flaw: map<string, seq<int>>, k: NodeId)
    requires Bounded(deps) && k < |deps| && |nodes| == |deps|
  {
    exists x :: x in Closure(deps, {k}) && FlawAt(flaw, nodes[x].loc)
  }

  /** The shared preconditions of the row predicates below. */
  ghost predicate Shaped(deps: seq<set<NodeId>>, nodes: seq<CodeNode>, emitted: seq<NodeId>) {
    Bounded(deps) && |nodes| == |deps| && forall j :: 0 <= j < |emitted| ==> emitted[j] < |deps|
  }

  /**
   * `emitted` lists, in increasing order, exactly the nodes below `upto`
   * whose closure has a feature.
   */
  ghost predicate Emits(deps: seq<set<NodeId>>, nodes: seq<CodeNode>, emitted: seq<NodeId>, upto: nat)
    requires Shaped(deps, nodes, emitted) && upto <= |deps|
  {
    (forall j :: 0 <= j < |emitted| ==> emitted[j] < upto) &&
    (forall i, j :: 0 <= i < j < |emitted| ==> emitted[i] < emitted[j]) &&
    forall i :: 0 <= i < upto ==> (i in emitted <==> FeatureNames(nodes, Closure(deps, {i})) != {})
  }

  /**
   * Row `j` describes node `emitted[j]`: its location, its features, its
   * status in `status`, and, with `markWholePath`, whether its closure
   * touches a flaw line (without it the label starts at 0).
   */
  ghost predicate RowsMatch(deps: seq<set<NodeId>>, nodes: seq<CodeNode>, status: seq<CodeNode>,
                            flaw: map<string, seq<int>>, markWholePath: bool, emitted: seq<NodeId>, rows: seq<Row>)
    requires Shaped(deps, nodes, emitted) && |status| == |nodes|
  {
    |rows| == |emitted| &&
    forall j :: 0 <= j < |rows| ==>
      var k := emitted[j];
      rows[j] == Row(nodes[k].loc.file, nodes[k].loc.line,
                     markWholePath && Vulnerable(deps, nodes, flaw, k),
                     status[k].tainted == Tainted, FeatureNames(nodes, Closure(deps, {k})))
  }

  /**
   * Among the emitted nodes, entry `j` is vulnerable, its closure is
   * strictly larger than that of every earlier vulnerable one and at least
   * as large as that of every later one.
   */
  ghost predicate FirstLargest(deps: seq<set<NodeId>>, nodes: seq<CodeNode>, flaw: map<string, seq<int>>,
                               emitted: seq<NodeId>, j: nat)
    requires Shaped(deps, nodes, emitted) && j < |emitted|
  {
    Vulnerable(deps, nodes, flaw, emitted[j]) &&
    (forall i :: 0 <= i < j && Vulnerable(deps, nodes, flaw, emitted[i]) ==>
       |Closure(deps, {emitted[i]})| < |Closure(deps, {emitted[j]})|) &&
    (forall i :: j < i < |emitted| && Vulnerable(deps, nodes, flaw, emitted[i]) ==>
       |Closure(deps, {emitted[i]})| <= |Closure(deps, {emitted[j]})|)
  }

  /**
   * The line to mark: none when no emitted node is vulnerable, otherwise
   * the location of the first vulnerable node with the largest closure.
   */
  ghost predicate LinePicked(deps: seq<set<NodeId>>, nodes: seq<CodeNode>, flaw: map<string, seq<int>>,
                             emitted: seq<NodeId>, line: Option<Loc>)
    requires Shaped(deps, nodes, emitted)
  {
    (line.None? <==> forall j :: 0 <= j < |emitted| ==> !Vulnerable(deps, nodes, flaw, emitted[j])) &&
    (line.Some? ==> exists j :: 0 <= j < |emitted| && FirstLargest(deps, nodes, flaw, emitted, j) &&
                                line.value == nodes[emitted[j]].loc)
  }

  /** The running state of the maximum: `best` is the entry found so far, `maxPath` its closure size. */
  ghost predicate Best(deps: seq<set<NodeId>>, nodes: seq<CodeNode>, flaw: map<string, seq<int>>,
                       emitted: seq<NodeId>, line: Option<Loc>, maxPath: nat, best: nat)
    requires Shaped(deps, nodes, emitted)
  {
    (line.None? <==> forall j :: 0 <= j < |emitted| ==> !Vulnerable(deps, nodes, flaw, emitted[j])) &&
    (line.None? ==> maxPath == 0) &&
    (line.Some? ==> best < |emitted| && FirstLargest(deps, nodes, flaw, emitted, best) &&
                    line.value == nodes[emitted[best]].loc && maxPath == |Closure(deps, {emitted[best]})|)
  }

  /**
   * The node loop of transform_graph. Every node's status is resolved, in
   * node order, before a node whose closure mentions no function and no
   * constant is skipped; with `markWholePath` a row is vulnerable when its
   * closure touches a flaw line, otherwise the location of the first
   * vulnerable node with the strictly largest closure is kept for marking.
   */
  method TransformNodes(g: Graph, reg: DefinitionRegister, flaw: map<string, seq<int>>, markWholePath: bool)
    returns (rows: seq<Row>, vulnerableLine: Option<Loc>, ghost emitted: seq<NodeId>)
    requires g.Coherent(reg)
    modifies g`nodes
    ensures TaintOnly(old(g.nodes), g.nodes)
    ensures forall k :: 0 <= k < |g.nodes| ==> Settled(g.nodes[k].tainted)
    ensures var deps := DepGraph(old(g.nodes), reg.defsDict, reg.defsList);
            Shaped(deps, old(g.nodes), emitted) &&
            Emits(deps, old(g.nodes), emitted, |g.nodes|) &&
            RowsMatch(deps, old(g.nodes), g.nodes, flaw, markWholePath, emitted, rows) &&
            (markWholePath ==> vulnerableLine.None?) &&
            (!markWholePath ==> LinePicked(deps, old(g.nodes), flaw, emitted, vulnerableLine))
  {
    var nodes0 := g.nodes;
    var dict, list := reg.defsDict, reg.defsList;
    var deps := seq(|nodes0|, k requires 0 <= k < |nodes0| => NodeDeps(dict, list, nodes0[k]));
    assert deps == DepGraph(nodes0, reg.defsDict, reg.defsList);
    assert Bounded(deps) by {
      forall k, d | 0 <= k < |deps| && d in deps[k] ensures d < |deps| {
        var b :| b in nodes0[k].inset * DefBitmask(reg.defsDict, nodes0[k].vars) && b < |reg.defsList| && reg.defsList[b] == d;
      }
    }
    rows := [];
    vulnerableLine := None;
    emitted := [];
    var maxPath: nat := 0;
    ghost var best: nat := 0;
    Start(deps, nodes0, g.nodes, flaw, markWholePath);
    for k := 0 to |nodes0|
      invariant |g.nodes| == |nodes0| && g.Coherent(reg)
      invariant Progress(deps, nodes0, g.nodes, flaw, markWholePath, k, emitted, rows, vulnerableLine, maxPath, best)
    {
      rows, vulnerableLine, maxPath, emitted, best :=
        TransformNode(g, reg, deps, nodes0, flaw, markWholePath, k, rows, vulnerableLine, maxPath, emitted, best);
    }
    hide Emits, RowsMatch, Best, LinePicked, Shaped, Vulnerable, FeatureNames, Closure, DepGraph, Closed, InRange;
    if !markWholePath {
      BestPicked(deps, nodes0, flaw, emitted, vulnerableLine, maxPath, best);
    }
  }

  /** The state of the node loop after the nodes below `k`. */
  ghost predicate Progress(deps: seq<set<NodeId>>, nodes: seq<CodeNode>, status: seq<CodeNode>,
                           flaw: map<string, seq<int>>, markWholePath: bool, k: nat,
                           emitted: seq<NodeId>, rows: seq<Row>, line: Option<Loc>, maxPath: nat, best: nat)
  {
    Bounded(deps) && |nodes| == |deps| && k <= |nodes| &&
    TaintOnly(nodes, status) && (forall i :: 0 <= i < k ==> Settled(status[i].tainted)) &&
    Shaped(deps, nodes, emitted) && Emits(deps, nodes, emitted, k) &&
    RowsMatch(deps, nodes, status, flaw, markWholePath, emitted, rows) &&
    (markWholePath ==> line.None?) &&
    (!markWholePath ==> Best(deps, nodes, flaw, emitted, line, maxPath, best))
  }

  /**
   * One pass of the node loop: the closure of node `k`, its features, its
   * status, then, unless it has no features, its row and the running
   * maximum.
   */
  method TransformNode(g: Graph, reg: DefinitionRegister, deps: seq<set<NodeId>>, nodes: seq<CodeNode>,
                       flaw: map<string, seq<int>>, markWholePath: bool, k: nat,
                       rows: seq<Row>, line: Option<Loc>, maxPath: nat, ghost emitted: seq<NodeId>, ghost best: nat)
    returns (rows': seq<Row>, line': Option<Loc>, maxPath': nat, ghost emitted': seq<NodeId>, ghost best': nat)
    requires g.Coherent(reg) && |g.nodes| == |nodes| && k < |nodes|
    requires Progress(deps, nodes, g.nodes, flaw, markWholePath, k, emitted, rows, line, maxPath, best)
    modifies g`nodes
    ensures g.Coherent(reg) && |g.nodes| == |nodes|
    ensures Progress(deps, nodes, g.nodes, flaw, markWholePath, k + 1, emitted', rows', line', maxPath', best')
  {
    hide Emits, RowsMatch, Best, LinePicked, Shaped, Vulnerable, FeatureNames, Closure, DepGraph, Closed, InRange, TaintOnly, Evolves;
    rows', line', maxPath', emitted', best' := rows, line, maxPath, emitted, best;
    var c := GetNodeWithDependencies(deps, {}, {k});
    ClosureOfOne(deps, {k}, c);
    var features := FeatureNames(nodes, c);
    ghost var before := g.nodes;
    var tainted := g.IsTainted(reg, k);
    RowsKeep(deps, nodes, before, g.nodes, flaw, markWholePath, emitted, rows, k);
    StatusStep(nodes, before, g.nodes, k);
    EmitsStep(deps, nodes, emitted, k);
    if features == {} {
      return;
    }
    var locs := PathLocs(nodes, c);
    ghost var vuln := IsVulnerable(flaw, locs);
    VulnerableIff(deps, nodes, flaw, k, c, locs);
    if !markWholePath {
      BestStep(deps, nodes, flaw, emitted, line, maxPath, best, k, vuln);
    }
    var vulnerable := false;
    if IsVulnerable(flaw, locs) {
      if markWholePath {
        vulnerable := true;
      } else if maxPath < |c| {
        maxPath' := |c|;
        line' := Some(nodes[k].loc);
        best' := |emitted|;
      }
    }
    var row := Row(nodes[k].loc.file, nodes[k].loc.line, vulnerable, tainted, features);
    RowsAppend(deps, nodes, g.nodes, flaw, markWholePath, emitted, rows, k, row);
    rows' := rows + [row];
    emitted' := emitted + [k];
  }

  /** Before the first node: no rows, nothing emitted, no line. */
  lemma Start(deps: seq<set<NodeId>>, nodes: seq<CodeNode>, status: seq<CodeNode>, flaw: map<string, seq<int>>, markWholePath: bool)
    requires Bounded(deps) && |nodes| == |deps| && |status| == |nodes|
    ensures Shaped(deps, nodes, []) && Emits(deps, nodes, [], 0)
    ensures RowsMatch(deps, nodes, status, flaw, markWholePath, [], [])
    ensures Best(deps, nodes, flaw, [], None, 0, 0)
  {
  }

  /** Resolving node `k` keeps the earlier statuses settled and changes nothing but statuses. */
  lemma {:induction false} StatusStep(nodes: seq<CodeNode>, s0: seq<CodeNode>, s1: seq<CodeNode>, k: nat)
    requires TaintOnly(nodes, s0) && TaintOnly(s0, s1) && k < |nodes|
    requires forall i :: 0 <= i < k ==> Settled(s0[i].tainted)
    requires forall i :: 0 <= i < |s0| ==> Evolves(s0[i].tainted, s1[i].tainted)
    requires Settled(s1[k].tainted)
    ensures TaintOnly(nodes, s1) && |s1| == |nodes|
    ensures forall i :: 0 <= i < k + 1 ==> Settled(s1[i].tainted)
  {
    forall i | 0 <= i < |nodes| ensures s1[i] == nodes[i].(tainted := s1[i].tainted) {
      assert s1[i] == s0[i].(tainted := s1[i].tainted);
      assert s0[i] == nodes[i].(tainted := s0[i].tainted);
    }
    forall i | 0 <= i < k ensures Settled(s1[i].tainted) {
      assert Evolves(s0[i].tainted, s1[i].tainted);
    }
  }

  /** `is_vulnerable` on the locations of a closure says whether the closure touches a flaw line. */
  lemma {:induction false} VulnerableIff(deps: seq<set<NodeId>>, nodes: seq<CodeNode>, flaw: map<string, seq<int>>,
                                         k: NodeId, c: set<NodeId>, locs: seq<Loc>)
    requires Bounded(deps) && k < |deps| && |nodes| == |deps| && c == Closure(deps, {k})
    requires forall l :: l in locs <==> exists x :: x in c && nodes[x].loc == l
    ensures IsVulnerable(flaw, locs) == Vulnerable(deps, nodes, flaw, k)
  {
    if Vulnerable(deps, nodes, flaw, k) {
      var x :| x in c && FlawAt(flaw, nodes[x].loc);
      assert nodes[x].loc in locs;
    }
  }

  /** Resolving node `k` leaves the statuses of the nodes already emitted as they were. */
  lemma {:induction false} RowsKeep(deps: seq<set<NodeId>>, nodes: seq<CodeNode>, s0: seq<CodeNode>, s1: seq<CodeNode>,
                                    flaw: map<string, seq<int>>, markWholePath: bool, emitted: seq<NodeId>, rows: seq<Row>, upto: nat)
    requires Shaped(deps, nodes, emitted) && |s0| == |nodes| && |s1| == |nodes|
    requires RowsMatch(deps, nodes, s0, flaw, markWholePath, emitted, rows)
    requires upto <= |deps| && Emits(deps, nodes, emitted, upto)
    requires forall i :: 0 <= i < upto ==> Settled(s0[i].tainted)
    requires forall i :: 0 <= i < |s0| ==> Evolves(s0[i].tainted, s1[i].tainted)
    ensures RowsMatch(deps, nodes, s1, flaw, markWholePath, emitted, rows)
  {
    forall j | 0 <= j < |emitted| ensures s1[emitted[j]].tainted == s0[emitted[j]].tainted {
      assert Evolves(s0[emitted[j]].tainted, s1[emitted[j]].tainted);
    }
  }

  /** One more row, for node `k`. */
  lemma {:induction false} RowsAppend(deps: seq<set<NodeId>>, nodes: seq<CodeNode>, status: seq<CodeNode>,
                                      flaw: map<string, seq<int>>, markWholePath: bool, emitted: seq<NodeId>, rows: seq<Row>,
                                      k: NodeId, row: Row)
    requires Shaped(deps, nodes, emitted) && |status| == |nodes| && k < |deps|
    requires RowsMatch(deps, nodes, status, flaw, markWholePath, emitted, rows)
    requires row == Row(nodes[k].loc.file, nodes[k].loc.line, markWholePath && Vulnerable(deps, nodes, flaw, k),
                        status[k].tainted == Tainted, FeatureNames(nodes, Closure(deps, {k})))
    ensures Shaped(deps, nodes, emitted + [k])
    ensures RowsMatch(deps, nodes, status, flaw, markWholePath, emitted + [k], rows + [row])
  {
    var e, r := emitted + [k], rows + [row];
    forall j | 0 <= j < |r|
      ensures r[j] == Row(nodes[e[j]].loc.file, nodes[e[j]].loc.line, markWholePath && Vulnerable(deps, nodes, flaw, e[j]),
                          status[e[j]].tainted == Tainted, FeatureNames(nodes, Closure(deps, {e[j]})))
    {
      if j < |rows| {
        assert r[j] == rows[j] && e[j] == emitted[j];
      }
    }
  }

  /** Node `k` is emitted exactly when its closure has a feature. */
  lemma {:induction false} EmitsStep(deps: seq<set<NodeId>>, nodes: seq<CodeNode>, emitted: seq<NodeId>, k: NodeId)
    requires Shaped(deps, nodes, emitted) && k < |deps| && Emits(deps, nodes, emitted, k)
    ensures Shaped(deps, nodes, emitted + [k])
    ensures FeatureNames(nodes, Closure(deps, {k})) == {} ==> Emits(deps, nodes, emitted, k + 1)
    ensures FeatureNames(nodes, Closure(deps, {k})) != {} ==> Emits(deps, nodes, emitted + [k], k + 1)
  {
    assert k !in emitted;
    var e := emitted + [k];
    forall i | 0 <= i < k + 1 ensures i in e <==> i in emitted || i == k {
      assert i in e <==> exists j :: 0 <= j < |e| && e[j] == i;
      if i in emitted {
        var j :| 0 <= j < |emitted| && emitted[j] == i;
        assert e[j] == i;
      }
    }
  }

  /** One more emitted node keeps the running maximum right. */
  lemma {:induction false} BestStep(deps: seq<set<NodeId>>, nodes: seq<CodeNode>, flaw: map<string, seq<int>>,
                                    emitted: seq<NodeId>, line: Option<Loc>, maxPath: nat, best: nat, k: NodeId, vuln: bool)
    requires Shaped(deps, nodes, emitted) && k < |deps|
    requires Best(deps, nodes, flaw, emitted, line, maxPath, best)
    requires vuln == Vulnerable(deps, nodes, flaw, k)
    ensures Shaped(deps, nodes, emitted + [k])
    ensures var size := |Closure(deps, {k})|;
            if vuln && maxPath < size
            then Best(deps, nodes, flaw, emitted + [k], Some(nodes[k].loc), size, |emitted|)
            else Best(deps, nodes, flaw, emitted + [k], line, maxPath, best)
  {
    hide Closure, Vulnerable;
    var e := emitted + [k];
    var n := |emitted|;
    var size := |Closure(deps, {k})|;
    assert k in Closure(deps, {k});
    assert forall j :: 0 <= j < n ==> e[j] == emitted[j];
    assert e[n] == k;
    if line.Some? {
      MaxBound(deps, nodes, flaw, emitted, line, maxPath, best);
    }
    if vuln && maxPath < size {
      assert FirstLargest(deps, nodes, flaw, e, n);
    } else if line.None? {
      assert !vuln;
    } else {
      assert FirstLargest(deps, nodes, flaw, e, best);
    }
  }

  /** Every vulnerable node emitted so far has a closure no larger than the running maximum. */
  lemma {:induction false} MaxBound(deps: seq<set<NodeId>>, nodes: seq<CodeNode>, flaw: map<string, seq<int>>,
                                    emitted: seq<NodeId>, line: Option<Loc>, maxPath: nat, best: nat)
    requires Shaped(deps, nodes, emitted) && Best(deps, nodes, flaw, emitted, line, maxPath, best) && line.Some?
    ensures forall j :: 0 <= j < |emitted| && Vulnerable(deps, nodes, flaw, emitted[j]) ==>
              |Closure(deps, {emitted[j]})| <= maxPath
  {
    hide Closure, Vulnerable;
    assert FirstLargest(deps, nodes, flaw, emitted, best);
    forall j | 0 <= j < |emitted| && Vulnerable(deps, nodes, flaw, emitted[j])
      ensures |Closure(deps, {emitted[j]})| <= maxPath
    {
      if j < best {
        assert |Closure(deps, {emitted[j]})| < |Closure(deps, {emitted[best]})|;
      } else if j > best {
        assert |Closure(deps, {emitted[j]})| <= |Closure(deps, {emitted[best]})|;
      }
    }
  }

  /** The running maximum at the end of the loop is the specified pick. */
  lemma {:induction false} BestPicked(deps: seq<set<NodeId>>, nodes: seq<CodeNode>, flaw: map<string, seq<int>>,
                                      emitted: seq<NodeId>, line: Option<Loc>, maxPath: nat, best: nat)
    requires Shaped(deps, nodes, emitted) && Best(deps, nodes, flaw, emitted, line, maxPath, best)
    ensures LinePicked(deps, nodes, flaw, emitted, line)
  {
  }

  /** Row `row` sits at location `v`. */
  predicate At(row: Row, v: Loc) {
    row.file == v.file && row.line == v.line
  }

  /**
   * The labelling after the loop as written: with rows and without
   * `mark_whole_path`, every row at the remembered line is set vulnerable;
   * when no line was remembered the variable still holds the integer 0 and
   * indexing it raises a TypeError, here `None`.
   */
  function LabelAsWritten(rows: seq<Row>, line: Option<Loc>, markWholePath: bool): (r: Option<seq<Row>>)
    ensures r.None? <==> |rows| > 0 && !markWholePath && line.None?
    ensures r.Some? ==> r.value == Label(rows, line, markWholePath)
  {
    if |rows| > 0 && !markWholePath then
      if line.None? then None else Some(Label(rows, line, markWholePath))
    else Some(rows)
  }

  /** A file with rows and no flaw line makes the labelling as written fail. */
  lemma LabelAsWrittenFails()
    ensures LabelAsWritten([Row(Some("a.php"), Some(3), false, false, {"func_mysql_query"})], None, false).None?
  {
  }

  /**
   * The labelling as intended: without `mark_whole_path` the rows at the
   * remembered line, if there is one, become vulnerable and nothing else
   * changes.
   */
  function Label(rows: seq<Row>, line: Option<Loc>, markWholePath: bool): (r: seq<Row>)
    ensures |r| == |rows|
    ensures forall j :: 0 <= j < |r| ==>
              r[j] == rows[j].(vulnerable := rows[j].vulnerable || (!markWholePath && line.Some? && At(rows[j], line.value)))
  {
    if |rows| > 0 && !markWholePath && line.Some? then
      seq(|rows|, j requires 0 <= j < |rows| => if At(rows[j], line.value) then rows[j].(vulnerable := true) else rows[j])
    else rows
  }

  /**
   * Each row's final label: with `markWholePath`, whether its closure
   * touches a flaw line; without it, whether it sits at the location of the
   * first vulnerable node with the largest closure.
   */
  ghost predicate Labelled(deps: seq<set<NodeId>>, nodes: seq<CodeNode>, flaw: map<string, seq<int>>,
                           markWholePath: bool, emitted: seq<NodeId>, rows: seq<Row>)
    requires Shaped(deps, nodes, emitted) && |rows| == |emitted|
  {
    forall j :: 0 <= j < |rows| ==>
      (rows[j].vulnerable <==>
         if markWholePath then Vulnerable(deps, nodes, flaw, emitted[j])
         else exists i :: 0 <= i < |emitted| && FirstLargest(deps, nodes, flaw, emitted, i) &&
                          nodes[emitted[i]].loc == nodes[emitted[j]].loc)
  }

  /**
   * transform_graph without the feature filter: the node loop and the
   * labelling. Every node's status is resolved; the rows are those of the
   * nodes with features, in node order, each with its location, status and
   * features, labelled as `Labelled` says.
   */
  method TransformGraph(g: Graph, reg: DefinitionRegister, flaw: map<string, seq<int>>, markWholePath: bool)
    returns (rows: seq<Row>, ghost emitted: seq<NodeId>)
    requires g.Coherent(reg)
    modifies g`nodes
    ensures TaintOnly(old(g.nodes), g.nodes)
    ensures forall k :: 0 <= k < |g.nodes| ==> Settled(g.nodes[k].tainted)
    ensures var deps := DepGraph(old(g.nodes), reg.defsDict, reg.defsList);
            Shaped(deps, old(g.nodes), emitted) &&
            Emits(deps, old(g.nodes), emitted, |g.nodes|) && |rows| == |emitted| &&
            (forall j :: 0 <= j < |rows| ==>
               var k := emitted[j];
               rows[j].(vulnerable := false) ==
                 Row(old(g.nodes)[k].loc.file, old(g.nodes)[k].loc.line, false, g.nodes[k].tainted == Tainted,
                     FeatureNames(old(g.nodes), Closure(deps, {k})))) &&
            Labelled(deps, old(g.nodes), flaw, markWholePath, emitted, rows)
  {
    var unlabelled, line;
    unlabelled, line, emitted := TransformNodes(g, reg, flaw, markWholePath);
    rows := Label(unlabelled, line, markWholePath);
    LabelRight(DepGraph(old(g.nodes), reg.defsDict, reg.defsList), old(g.nodes), g.nodes, flaw, markWholePath,
               emitted, unlabelled, line, rows);
  }

  /** The labelling gives every row the label `Labelled` specifies. */
  lemma {:induction false} LabelRight(deps: seq<set<NodeId>>, nodes: seq<CodeNode>, status: seq<CodeNode>,
                                      flaw: map<string, seq<int>>, markWholePath: bool, emitted: seq<NodeId>,
                                      unlabelled: seq<Row>, line: Option<Loc>, rows: seq<Row>)
    requires Shaped(deps, nodes, emitted) && |status| == |nodes|
    requires RowsMatch(deps, nodes, status, flaw, markWholePath, emitted, unlabelled)
    requires markWholePath ==> line.None?
    requires !markWholePath ==> LinePicked(deps, nodes, flaw, emitted, line)
    requires rows == Label(unlabelled, line, markWholePath)
    ensures |rows| == |emitted| && Labelled(deps, nodes, flaw, markWholePath, emitted, rows)
    ensures forall j :: 0 <= j < |rows| ==> rows[j].(vulnerable := false) == unlabelled[j].(vulnerable := false)
  {
    forall j | 0 <= j < |rows|
      ensures rows[j].vulnerable <==>
         if markWholePath then Vulnerable(deps, nodes, flaw, emitted[j])
         else exists i :: 0 <= i < |emitted| && FirstLargest(deps, nodes, flaw, emitted, i) &&
                          nodes[emitted[i]].loc == nodes[emitted[j]].loc
    {
      if !markWholePath && line.Some? {
        var i :| 0 <= i < |emitted| && FirstLargest(deps, nodes, flaw, emitted, i) && line.value == nodes[emitted[i]].loc;
        FirstLargestUnique(deps, nodes, flaw, emitted, i);
      } else if !markWholePath {
        forall i | 0 <= i < |emitted| ensures !FirstLargest(deps, nodes, flaw, emitted, i) {
        }
      }
    }
  }

  /** At most one entry is the first vulnerable one with the largest closure. */
  lemma {:induction false} FirstLargestUnique(deps: seq<set<NodeId>>, nodes: seq<CodeNode>, flaw: map<string, seq<int>>,
                                              emitted: seq<NodeId>, i: nat)
    requires Shaped(deps, nodes, emitted) && i < |emitted| && FirstLargest(deps, nodes, flaw, emitted, i)
    ensures forall j :: 0 <= j < |emitted| && FirstLargest(deps, nodes, flaw, emitted, j) ==> j == i
  {
    forall j | 0 <= j < |emitted| && FirstLargest(deps, nodes, flaw, emitted, j) ensures j == i {
      // an earlier one would be strictly smaller than `i`'s and a later one no larger
    }
  }

  /**
   * Without `markWholePath`, some row ends up vulnerable exactly when some
   * node with features has a closure that touches a flaw line: the chosen
   * node's own row carries the label.
   */
  lemma {:induction false} SomeRowVulnerable(deps: seq<set<NodeId>>, nodes: seq<CodeNode>, flaw: map<string, seq<int>>,
                                             emitted: seq<NodeId>, rows: seq<Row>, line: Option<Loc>)
    requires Shaped(deps, nodes, emitted) && |rows| == |emitted|
    requires LinePicked(deps, nodes, flaw, emitted, line)
    requires Labelled(deps, nodes, flaw, false, emitted, rows)
    ensures (exists j :: 0 <= j < |rows| && rows[j].vulnerable) <==>
            (exists j :: 0 <= j < |emitted| && Vulnerable(deps, nodes, flaw, emitted[j]))
  {
    if exists j :: 0 <= j < |emitted| && Vulnerable(deps, nodes, flaw, emitted[j]) {
      var i :| 0 <= i < |emitted| && FirstLargest(deps, nodes, flaw, emitted, i) && line.value == nodes[emitted[i]].loc;
      assert rows[i].vulnerable;
    }
    if exists j :: 0 <= j < |rows| && rows[j].vulnerable {
      var j :| 0 <= j < |rows| && rows[j].vulnerable;
      var i :| 0 <= i < |emitted| && FirstLargest(deps, nodes, flaw, emitted, i) && nodes[emitted[i]].loc == nodes[emitted[j]].loc;
      assert Vulnerable(deps, nodes, flaw, emitted[i]);
    }
  }
}
