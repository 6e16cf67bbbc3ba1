/**
 * Small programs run through the listener's handlers in the order
 * `traverse_node` dispatches them, with the graphs `get_graph` returns
 * (tests/extraction_myphplistener_tests.py). A condition is rendered by the
 * handler of its statement and is then skipped by the walk, so it gives no
 * callbacks of its own; the base listener's other callbacks do nothing.
 * The if test is also walked by the traverser itself, which reaches the
 * same state as the handlers called one by one.
 */
module ListenerScenarios {
  import opened Wrappers
  import opened CodeNodes
  import opened DefinitionRegistry
  import opened Dataflow
  import opened PhpAst
  import opened Reach
  import opened FuncIds
  import opened PhpListener
  import opened TaintHeuristic
  import opened Graphs
  import opened PhpTraverser

  /** The line map of a one-line file: line 1 of `filename.php`. */
  function OneLine(): seq<Loc> {
    [Loc(None, None), Loc(Some("filename.php"), Some(1))]
  }

  /** Each node's statement and whether it is a call. */
  function Heads(nodes: seq<CodeNode>): (r: seq<(string, bool)>)
    ensures |r| == |nodes| && forall k :: 0 <= k < |nodes| ==> r[k] == (nodes[k].stmt, nodes[k].isCall)
  {
    seq(|nodes|, k requires 0 <= k < |nodes| => (nodes[k].stmt, nodes[k].isCall))
  }

  /** A listener at statement level outside any echo or return, over the one-line file. */
  ghost predicate Idle(l: Listener)
    reads l, l.g, l.reg
  {
    l.Valid() && Unsolved(l.g.nodes) && l.doNotParse == 0 && l.lineMap == OneLine()
  }

  /**
   * add_node outside any function body, as seen from the statements, the
   * edges and the frontier: a node `(stmt, call)` is appended, every
   * frontier node gets an edge to it, and it alone is the new frontier.
   */
  ghost predicate Grew(heads0: seq<(string, bool)>, edges0: set<Edge>, exits0: seq<NodeId>,
                       heads: seq<(string, bool)>, edges: set<Edge>, exits: seq<NodeId>, stmt: string, call: bool) {
    heads == heads0 + [(stmt, call)] && edges == edges0 + FromFrontier(exits0, |heads0|) && exits == [|heads0|]
  }

  /** Rendering leaves the statements, the edges and the control state alone. */
  lemma PreparedKeeps()
    ensures forall s, n, t {:trigger Prepared(s, n, t)} ::
      Heads(Prepared(s, n, t).nodes) == Heads(s.nodes) && Prepared(s, n, t).edges == s.edges && Prepared(s, n, t).ctl == s.ctl
  {
    forall s, n, t ensures Heads(Prepared(s, n, t).nodes) == Heads(s.nodes) {
      assert Heads(Prepared(s, n, t).nodes) == Heads(s.nodes);
    }
  }

  lemma UnparsedKeeps()
    ensures forall s, r {:trigger Unparsed(s, r)} ::
      Heads(Unparsed(s, r).nodes) == Heads(s.nodes) && Unparsed(s, r).edges == s.edges && Unparsed(s, r).ctl == s.ctl
  {
    forall s, r ensures Heads(Unparsed(s, r).nodes) == Heads(s.nodes) {
      assert Heads(Unparsed(s, r).nodes) == Heads(s.nodes);
    }
  }

  /** add_node appends the node and links it as Linked says. */
  lemma AddedShape()
    ensures forall s, spec {:trigger Added(s, spec)} ::
      Heads(Added(s, spec).nodes) == Heads(s.nodes) + [(spec.stmt, spec.isCall)] &&
      (Added(s, spec).ctl, Added(s, spec).edges) == Linked(s.ctl, s.edges, |s.nodes|)
  {
    forall s, spec ensures Heads(Added(s, spec).nodes) == Heads(s.nodes) + [(spec.stmt, spec.isCall)] {
      assert Heads(Added(s, spec).nodes) == Heads(s.nodes) + [(spec.stmt, spec.isCall)];
    }
  }

  /**
   * Rendering a statement and its target after `reset_tracking`: no node
   * holds the new sets yet, so the nodes are left alone, and the tracked
   * variables are those of both renderings.
   */
  lemma PreparedTarget()
    ensures forall s, n, t {:trigger Prepared(s, n, Some(t))} ::
      Prepared(s, n, Some(t)).nodes == s.nodes && Prepared(s, n, Some(t)).reg == s.reg &&
      Prepared(s, n, Some(t)).trk.vars == Unparse(n).vars + Unparse(t).vars
  {
    forall s, n, t ensures Prepared(s, n, Some(t)).nodes == s.nodes {
      var s1 := Unparsed(Reset(s), Unparse(n));
      assert s1.nodes == s.nodes;
    }
  }

  /** add_node appends the node its constructor builds and enrolls its definition. */
  lemma AddedNode()
    ensures forall s, spec {:trigger Added(s, spec)} ::
      Added(s, spec).nodes == s.nodes + [Built(spec, s.reg)] && Added(s, spec).reg == Enrolled(s.reg, spec.assign, |s.nodes|)
  {
  }

  /** The call edges depend on the nodes only through their statements and call flags. */
  lemma CallEdgesByHeads(a: seq<CodeNode>, b: seq<CodeNode>, fs: map<string, (NodeId, NodeId)>, i: nat)
    requires Heads(a) == Heads(b)
    ensures CallEdgesBelow(a, fs, i) == CallEdgesBelow(b, fs, i)
  {
    forall k | 0 <= k < |a| ensures a[k].stmt == b[k].stmt && a[k].isCall == b[k].isCall {
      assert Heads(a)[k] == Heads(b)[k];
    }
    assert forall k :: LinkedCall(a, fs, k) <==> LinkedCall(b, fs, k);
  }

  /** enter_if. */
  method StepIf(l: Listener, ctx: Node)
    requires Idle(l) && ctx.kind.If? && ctx.line < |l.lineMap| && l.inFunctions == []
    modifies l, l.g, l.reg, l.log
    ensures Idle(l) && l.functions == old(l.functions)
    ensures Grew(old(Heads(l.g.nodes)), old(l.g.edges), old(l.exitNodes), Heads(l.g.nodes), l.g.edges, l.exitNodes, "if", false)
    ensures l.Stacks() == old(l.Stacks()).(ifNodes := old(l.ifNodes) + [(|old(l.g.nodes)|, false)])
    ensures l.St() == IfEntered(old(l.St()), l.lineMap, ctx)
  {
    hide Unparse, Added, Prepared, Handed, Unparsed, Shared, Enrolled, Listener.Valid, Unsolved;
    PreparedKeeps();
    AddedShape();
    l.EnterIf(ctx);
  }

  /** exit_if. */
  method StepExitIf(l: Listener, ctx: Node)
    requires Idle(l) && |l.ifNodes| > 0
    modifies l, l.log
    ensures Idle(l) && Heads(l.g.nodes) == old(Heads(l.g.nodes)) && l.g.edges == old(l.g.edges) && l.functions == old(l.functions)
    ensures var top := old(l.ifNodes)[|old(l.ifNodes)| - 1];
      l.exitNodes == SinksOf(old(l.g.edges), top.0, |old(l.g.nodes)|) + (if top.1 then [] else [top.0])
    ensures l.Stacks() == old(l.Stacks()).(ifNodes := old(l.ifNodes)[..|old(l.ifNodes)| - 1])
    ensures l.St() == IfExited(old(l.St()))
  {
    hide Unparse, Added, Prepared, Handed, Unparsed, Shared, Enrolled, Listener.Valid, Unsolved, SinksOf;
    l.ExitIf(ctx);
  }

  /** enter_function_call. */
  method StepCall(l: Listener, ctx: Node)
    requires Idle(l) && ctx.kind.FunctionCall? && ctx.line < |l.lineMap| && l.inFunctions == []
    modifies l, l.g, l.reg, l.log
    ensures Idle(l) && l.functions == old(l.functions)
    ensures Grew(old(Heads(l.g.nodes)), old(l.g.edges), old(l.exitNodes), Heads(l.g.nodes), l.g.edges, l.exitNodes, Unparse(ctx).text, true)
    ensures l.Stacks() == old(l.Stacks())
    ensures l.St() == CallEntered(old(l.St()), l.lineMap, ctx)
  {
    hide Unparse, Added, Prepared, Handed, Unparsed, Shared, Enrolled, Listener.Valid, Unsolved;
    PreparedKeeps();
    AddedShape();
    l.EnterFunctionCall(ctx);
  }

  /**
   * enter_assignment: a node for the statement, MAYBE or NOT tainted by the
   * shape of the assigned expression, reading the names both renderings
   * track except the target, generating the next definition bit and killing
   * the target's earlier ones; the definition is registered under the
   * target's text.
   */
  method StepAssign(l: Listener, ctx: Node)
    requires Idle(l) && ctx.kind.Assignment? && ctx.line < |l.lineMap| && l.inFunctions == []
    modifies l, l.g, l.reg, l.log
    ensures Idle(l) && l.functions == old(l.functions) && l.Stacks() == old(l.Stacks())
    ensures Grew(old(Heads(l.g.nodes)), old(l.g.edges), old(l.exitNodes), Heads(l.g.nodes), l.g.edges, l.exitNodes, "expression", false)
    ensures var h := |old(l.g.nodes)|; var a := Unparse(ctx.kind.target).text;
      l.g.nodes[..h] == old(l.g.nodes) &&
      l.g.nodes[h].tainted == StaticTaint(ctx.kind.expr) &&
      l.g.nodes[h].vars == (Unparse(ctx).vars + Unparse(ctx.kind.target).vars) - {a} &&
      l.g.nodes[h].gen == {old(l.reg.nextBit)} && l.g.nodes[h].kill == TargetBits(old(l.reg.defsDict), a) &&
      l.reg.defsDict == Registered(old(l.reg.defsDict), a, Def(old(l.reg.nextBit), h)) &&
      l.reg.defsList == old(l.reg.defsList) + [h] && l.reg.nextBit == old(l.reg.nextBit) + 1
  {
    hide Unparse, Added, Prepared, Handed, Unparsed, Shared, Listener.Valid, Unsolved, StaticTaint, Registered, TargetBits;
    PreparedKeeps();
    PreparedTarget();
    AddedShape();
    AddedNode();
    l.EnterAssignment(ctx);
  }

  /** enter_echo, then (its expressions giving no callbacks) exit_echo. */
  method StepEcho(l: Listener, ctx: Node)
    requires Idle(l) && ctx.kind.Echo? && ctx.line < |l.lineMap| && l.inFunctions == []
    modifies l, l.g, l.reg, l.log
    ensures Idle(l) && l.functions == old(l.functions)
    ensures Grew(old(Heads(l.g.nodes)), old(l.g.edges), old(l.exitNodes), Heads(l.g.nodes), l.g.edges, l.exitNodes, "echo", false)
    ensures l.Stacks() == old(l.Stacks())
  {
    hide Unparse, Added, Prepared, Handed, Unparsed, Shared, Enrolled, Listener.Valid, Unsolved;
    UnparsedKeeps();
    AddedShape();
    l.EnterEcho(ctx);
    l.ExitEcho(ctx);
  }

  /**
   * enter_echo then exit_echo as the first statement of a function body:
   * the node becomes the function's entry and exit and gets no edges.
   */
  method StepEchoFirst(l: Listener, ctx: Node)
    requires Idle(l) && ctx.kind.Echo? && ctx.line < |l.lineMap|
    requires |l.inFunctions| > 0 && l.inFunctions[|l.inFunctions| - 1].0 !in l.functions
    modifies l, l.g, l.reg, l.log
    ensures Idle(l) && Heads(l.g.nodes) == old(Heads(l.g.nodes)) + [("echo", false)] && l.g.edges == old(l.g.edges)
    ensures l.exitNodes == [|old(l.g.nodes)|]
    ensures l.functions == old(l.functions)[old(l.inFunctions)[|old(l.inFunctions)| - 1].0 := (|old(l.g.nodes)|, |old(l.g.nodes)|)]
    ensures l.Stacks() == old(l.Stacks())
  {
    hide Unparse, Added, Prepared, Handed, Unparsed, Shared, Enrolled, Listener.Valid, Unsolved;
    UnparsedKeeps();
    AddedShape();
    l.EnterEcho(ctx);
    l.ExitEcho(ctx);
  }

  /** enter_while. */
  method StepWhile(l: Listener, ctx: Node)
    requires Idle(l) && ctx.kind.While? && ctx.line < |l.lineMap| && l.inFunctions == []
    modifies l, l.g, l.reg, l.log
    ensures Idle(l) && l.functions == old(l.functions)
    ensures Grew(old(Heads(l.g.nodes)), old(l.g.edges), old(l.exitNodes), Heads(l.g.nodes), l.g.edges, l.exitNodes, "while", false)
    ensures l.Stacks() == old(l.Stacks()).(whileNodes := old(l.whileNodes) + [|old(l.g.nodes)|])
    ensures l.St() == WhileEntered(old(l.St()), l.lineMap, ctx)
  {
    hide Unparse, Added, Prepared, Handed, Unparsed, Shared, Enrolled, Listener.Valid, Unsolved;
    PreparedKeeps();
    AddedShape();
    l.EnterWhile(ctx);
  }

  /** exit_while on a frontier of one node: a back edge from it, then the header joins the frontier. */
  method StepExitWhile(l: Listener, ctx: Node)
    requires Idle(l) && |l.whileNodes| > 0 && |l.exitNodes| == 1
    modifies l, l.g, l.reg, l.log
    ensures Idle(l) && Heads(l.g.nodes) == old(Heads(l.g.nodes)) && l.functions == old(l.functions)
    ensures var w := old(l.whileNodes)[|old(l.whileNodes)| - 1];
      l.g.edges == old(l.g.edges) + {(old(l.exitNodes)[0], w)} && l.exitNodes == old(l.exitNodes) + [w]
    ensures l.Stacks() == old(l.Stacks()).(whileNodes := old(l.whileNodes)[..|old(l.whileNodes)| - 1])
    ensures l.St() == WhileExited(old(l.St()))
  {
    hide Unparse, Added, Prepared, Handed, Unparsed, Shared, Enrolled, Listener.Valid, Unsolved;
    l.ExitWhile(ctx);
  }

  /** enter_function_declaration. */
  method StepDeclare(l: Listener, ctx: Node)
    requires Idle(l) && ctx.kind.Function?
    modifies l, l.g, l.log
    ensures Idle(l) && Heads(l.g.nodes) == old(Heads(l.g.nodes)) && l.g.edges == old(l.g.edges)
    ensures l.exitNodes == old(l.exitNodes) && l.functions == old(l.functions)
    ensures GenerateFuncId(Unparse(ctx).text).Some?
    ensures l.Stacks() == old(l.Stacks()).(inFunctions := old(l.inFunctions) + [(GenerateFuncId(Unparse(ctx).text).value, old(l.exitNodes))])
  {
    hide Unparse, Added, Prepared, Handed, Unparsed, Shared, Enrolled, Listener.Valid, Unsolved;
    UnparsedKeeps();
    l.EnterFunctionDeclaration(ctx);
  }

  /** exit_function_declaration. */
  method StepEndDeclare(l: Listener, ctx: Node)
    requires Idle(l) && |l.inFunctions| > 0
    modifies l, l.log
    ensures Idle(l) && Heads(l.g.nodes) == old(Heads(l.g.nodes)) && l.g.edges == old(l.g.edges) && l.functions == old(l.functions)
    ensures l.exitNodes == old(l.inFunctions)[|old(l.inFunctions)| - 1].1
    ensures l.Stacks() == old(l.Stacks()).(inFunctions := old(l.inFunctions)[..|old(l.inFunctions)| - 1])
  {
    hide Unparse, Added, Prepared, Handed, Unparsed, Shared, Enrolled, Listener.Valid, Unsolved;
    l.ExitFunctionDeclaration(ctx);
  }

  /** get_graph, outside any function body. */
  method StepGraph(l: Listener)
    requires Idle(l) && l.inFunctions == []
    modifies l, l.g, l.reg
    ensures l.Valid() && Solved(l.g.nodes, l.g.edges) && l.functions == old(l.functions)
    ensures l.Regs() == old(l.Regs())
    ensures |old(l.exitNodes)| <= 1 ==> OnlySets(old(l.g.nodes), l.g.nodes)
    ensures var n := |old(l.g.nodes)|;
      if |old(l.exitNodes)| > 1 then
        Heads(l.g.nodes) == old(Heads(l.g.nodes)) + [("empty", false)] &&
        l.g.edges == old(l.g.edges) + FromFrontier(old(l.exitNodes), n) + CallEdgesBelow(l.g.nodes, l.functions, n + 1)
      else
        Heads(l.g.nodes) == old(Heads(l.g.nodes)) &&
        l.g.edges == old(l.g.edges) + CallEdgesBelow(l.g.nodes, l.functions, n)
  {
    hide Unparse, Added, Prepared, Handed, Unparsed, Shared, Listener.Valid, Unsolved, Solved, CallEdgesBelow;
    AddedShape();
    AddedNode();
    ghost var s0 := l.St();
    l.GetGraph();
    ghost var s1 := if |s0.ctl.exitNodes| > 1 then Added(s0, Bare(EmptyLoc, "empty", "")) else s0;
    assert Heads(s1.nodes) == Heads(l.g.nodes) by {
      forall k | 0 <= k < |s1.nodes| ensures Heads(s1.nodes)[k] == Heads(l.g.nodes)[k] {
      }
    }
    CallEdgesByHeads(s1.nodes, l.g.nodes, l.functions, |s1.nodes|);
  }

  /* ---- the scenarios ---- */

  lemma FromNone(h: NodeId)
    ensures FromFrontier([], h) == {}
  {
  }

  lemma FromOne(x: NodeId, h: NodeId)
    ensures FromFrontier([x], h) == {(x, h)}
  {
    assert (x, h) == ([x][0], h);
  }

  lemma FromTwo(x: NodeId, y: NodeId, h: NodeId)
    ensures FromFrontier([x, y], h) == {(x, h), (y, h)}
  {
    assert (x, h) == ([x, y][0], h) && (y, h) == ([x, y][1], h);
  }

  /** With no function declared there are no call edges. */
  lemma NoCallEdges(nodes: seq<CodeNode>, i: nat)
    ensures CallEdgesBelow(nodes, map[], i) == {}
  {
  }

  /** A call without arguments renders as its name and `()`, and so does a declaration without parameters. */
  lemma CallText(id: nat, line: nat, name: string, stmts: seq<Node>)
    ensures Unparse(Node(id, line, FunctionCall(name, []))).text == name + "()"
    ensures Unparse(Node(id, line, Function(name, [], stmts))).text == name + "()"
  {
    assert ParamNames([]) == [];
  }

  /** The call in the if test below. */
  function IfCall(): Node {
    Node(4, 1, FunctionCall("foo", []))
  }

  /** `if ($a) { foo(); }`. */
  function IfTree(): Node {
    Node(1, 1, If(Node(2, 1, Variable("$a")), Node(3, 1, Block([IfCall()])), [], None))
  }

  /** enter_if renders the test's condition, marking it traversed. */
  lemma IfCondRendered()
    ensures IfEntered(Initial(), OneLine(), IfTree()).trk.traversed == [2]
  {
    hide CallEntered, IfExited, Walked, Visited, WalkedAll;
    assert Unparse(IfTree().kind.cond).touched == [2];
  }

  /**
   * Once the condition is traversed, the walk skips it, and the block's
   * only callback with a handler is enter_function_call.
   */
  lemma {:induction false} IfBodyWalked(s: Snapshot, m: seq<Loc>)
    requires s.trk.traversed == [2]
    ensures Walked(s, m, IfTree().kind.cond) == s
    ensures Walked(s, m, IfTree().kind.body) == CallEntered(s, m, IfCall())
  {
    hide IfEntered, CallEntered, IfExited, Unparse;
    var b := IfTree().kind.body;
    assert Walked(s, m, b) == Visited(s, m, b) == WalkedAll(s, m, [IfCall()]);
    assert WalkedAll(s, m, [IfCall()]) == Walked(WalkedAll(s, m, []), m, IfCall());
  }

  /** An if with no elseif and no else, walked first, is entered, its condition and body walked, and exited. */
  lemma {:induction false} IfTreeWalked(s: Snapshot, m: seq<Loc>)
    requires s.trk.traversed == []
    ensures WalkedAll(s, m, [IfTree()]) ==
      IfExited(Walked(Walked(IfEntered(s, m, IfTree()), m, IfTree().kind.cond), m, IfTree().kind.body))
  {
    hide IfEntered, CallEntered, IfExited, Unparse;
    var t := IfTree();
    assert WalkedAll(s, m, [t]) == Walked(WalkedAll(s, m, []), m, t) == Visited(s, m, t);
  }

  /**
   * The walk of the if test reaches the state of enter_if, then
   * enter_function_call, then exit_if: enter_if renders the condition, so
   * the walk skips it, and the block's other callbacks do nothing.
   */
  lemma IfWalk()
    ensures WalkedAll(Initial(), OneLine(), [IfTree()]) ==
      IfExited(CallEntered(IfEntered(Initial(), OneLine(), IfTree()), OneLine(), IfCall()))
  {
    hide Unparse, Walked, Visited, WalkedAll;
    IfCondRendered();
    IfBodyWalked(IfEntered(Initial(), OneLine(), IfTree()), OneLine());
    IfTreeWalked(Initial(), OneLine());
  }

  /** enter_if and enter_function_call on the if test. */
  method IfBody(l: Listener)
    requires At(l, [], {}, [], map[], NoFrames())
    modifies l, l.g, l.reg, l.log
    ensures At(l, [("if", false), ("foo()", true)], {(0, 1)}, [1], map[], NoFrames().(ifNodes := [(0, false)]))
    ensures l.St() == CallEntered(IfEntered(old(l.St()), OneLine(), IfTree()), OneLine(), IfCall())
  {
    hide Unparse, SinksOf, Listener.Valid, Unsolved, Listener.Trk, Linked, IfEntered, IfExited, CallEntered;
    CallText(4, 1, "foo", []);
    assert "foo" + "()" == "foo()";
    FromNone(0);
    StepIf(l, IfTree());
    assert Heads(l.g.nodes) == [("if", false)] && l.g.edges == {} && l.exitNodes == [0];
    FromOne(0, 1);
    StepCall(l, IfCall());
  }

  /** The handlers of the if test, called one by one: enter_if, enter_function_call, exit_if. */
  method IfByHand() returns (h: Listener)
    ensures fresh(h) && fresh(h.g) && fresh(h.reg) && fresh(h.log)
    ensures At(h, [("if", false), ("foo()", true)], {(0, 1)}, [1, 0], map[], NoFrames())
    ensures h.St() == IfExited(CallEntered(IfEntered(Initial(), OneLine(), IfTree()), OneLine(), IfCall()))
  {
    hide Unparse, SinksOf, Listener.Valid, Unsolved, Listener.Trk, Linked, IfEntered, IfExited, CallEntered, IfTree, IfCall;
    h := Start();
    IfBody(h);
    IfSinks();
    StepExitIf(h, IfTree());
  }

  /** Two listeners in the same state have the same graph, frontier, function table and stacks. */
  lemma SameState(l: Listener, h: Listener)
    requires l.St() == h.St()
    ensures l.g.nodes == h.g.nodes && l.g.edges == h.g.edges && l.exitNodes == h.exitNodes
    ensures l.functions == h.functions && l.Stacks() == h.Stacks()
  {
  }

  /** Every node of the if test is on line 1, so any line map of two or more entries covers it. */
  lemma IfFits(m: nat)
    requires m > 1
    ensures FitsAll([IfTree()], m, false)
  {
    hide Unparse;
    var t := IfTree();
    assert Fits(IfCall(), m, false) && FitsAll([IfCall()], m, false);
    assert Fits(t.kind.body, m, false) && Fits(t.kind.cond, m, false);
    assert Fits(t, m, false);
  }

  /**
   * The traverser's walk of the if test leaves the listener where the
   * handlers called one by one leave it, and its log is a walk of the tree.
   */
  method IfTraversed() returns (l: Listener)
    ensures fresh(l) && fresh(l.g) && fresh(l.reg) && fresh(l.log)
    ensures At(l, [("if", false), ("foo()", true)], {(0, 1)}, [1, 0], map[], NoFrames())
    ensures WalkAll([IfTree()], l.log.calls)
  {
    hide Unparse, SinksOf, CallEdgesBelow, Listener.Valid, Unsolved, Solved, Listener.Trk, Linked, IfEntered, IfExited, CallEntered, WalkedAll, WalkAll,
      FitsAll, Heads, IfTree, IfCall, Walked, Visited, Initial;
    l := Start();
    IfFits(|OneLine()|);
    ghost var ev := TraverseList([IfTree()], l);
    assert l.log.calls == ev;
    var h := IfByHand();
    IfWalk();
    SameState(l, h);
  }

  /**
   * `<?php if ($a) { foo(); }`, walked by the traverser: the if node, the
   * call, and the `empty` node `get_graph` adds to join the call and the if
   * (which has no else); three nodes and three edges, the if leading to the
   * call. The listener's log is a walk of the tree.
   */
  method IfScenario() returns (l: Listener)
    ensures Heads(l.g.nodes) == [("if", false), ("foo()", true), ("empty", false)]
    ensures l.g.edges == {(0, 1), (1, 2), (0, 2)}
    ensures WalkAll([IfTree()], l.log.calls)
  {
    hide Unparse, SinksOf, CallEdgesBelow, Listener.Valid, Unsolved, Solved, Listener.Trk, Linked, IfEntered, IfExited, CallEntered, WalkedAll, WalkAll, Listener.St;
    l := IfTraversed();
    FromTwo(1, 0, 2);
    StepGraph(l);
    NoCallEdges(l.g.nodes, 3);
  }

  /** The sinks the if node reaches after `if (...) { foo(); }`: the call alone. */
  lemma IfSinks()
    ensures SinksOf({(0, 1)}, 0, 2) == [1]
  {
    ReachesSelf({(0, 1)}, 0);
    assert IsPath({(0, 1)}, [0, 1]);
    assert !NoOut({(0, 1)}, 0);
  }

  /** The listener's graph, frontier, function table and stacks are exactly these. */
  ghost predicate At(l: Listener, heads: seq<(string, bool)>, edges: set<Edge>, exits: seq<NodeId>,
                     fs: map<string, (NodeId, NodeId)>, frames: Frames)
    reads l, l.g, l.reg
  {
    Idle(l) && Heads(l.g.nodes) == heads && l.g.edges == edges && l.exitNodes == exits && l.functions == fs && l.Stacks() == frames
  }

  /** The stacks of a listener at top level. */
  function NoFrames(): Frames {
    Frames([], [], [], [], 0, [])
  }

  /** A new listener over the one-line file. */
  method Start() returns (l: Listener)
    ensures fresh(l) && fresh(l.g) && fresh(l.reg) && fresh(l.log)
    ensures At(l, [], {}, [], map[], NoFrames())
    ensures l.reg.defsDict == map[] && l.reg.defsList == [] && l.reg.nextBit == 0
    ensures l.St() == Initial() && l.log.calls == []
  {
    var r := new DefinitionRegister();
    l := new Listener(r, OneLine(), "filename.php");
  }

  /**
   * `<?php while(true) { foo(); bar(); }`, walked by the traverser: after
   * the body the frontier is `bar()`, which gets the back edge to the
   * header; the header then joins the frontier, so `get_graph` adds an
   * `empty` node after both. Four nodes and five edges, the header leading
   * to `foo()` and to `empty`. The listener's log is a walk of the tree.
   */
  method WhileScenario() returns (l: Listener)
    ensures Heads(l.g.nodes) == [("while", false), ("foo()", true), ("bar()", true), ("empty", false)]
    ensures l.g.edges == {(0, 1), (1, 2), (2, 0), (2, 3), (0, 3)}
    ensures WalkAll([WhileLoop()], l.log.calls)
  {
    hide Unparse, CallEdgesBelow, Listener.Valid, Unsolved, Solved, Listener.St, Listener.Trk, Linked, WalkAll;
    l := WhileTraversed();
    FromTwo(2, 0, 3);
    StepGraph(l);
    NoCallEdges(l.g.nodes, 4);
  }

  /** The first call of the loop body below. */
  function WhileFoo(): Node {
    Node(4, 1, FunctionCall("foo", []))
  }

  /** The second call of the loop body below. */
  function WhileBar(): Node {
    Node(5, 1, FunctionCall("bar", []))
  }

  /** `while(true) { foo(); bar(); }`. */
  function WhileLoop(): Node {
    Node(1, 1, While(Node(2, 1, Constant("true")), Node(3, 1, Block([WhileFoo(), WhileBar()]))))
  }

  /** The header and the two calls of the body. */
  method WhileBody(l: Listener)
    requires At(l, [], {}, [], map[], NoFrames())
    modifies l, l.g, l.reg, l.log
    ensures At(l, [("while", false), ("foo()", true), ("bar()", true)], {(0, 1), (1, 2)}, [2], map[], NoFrames().(whileNodes := [0]))
    ensures l.St() == CallEntered(CallEntered(WhileEntered(old(l.St()), OneLine(), WhileLoop()), OneLine(), WhileFoo()), OneLine(), WhileBar())
  {
    hide Unparse, Listener.Valid, Unsolved, Listener.Trk, Linked, WhileEntered, CallEntered;
    var foo := WhileFoo();
    var bar := WhileBar();
    var w := WhileLoop();
    CallText(4, 1, "foo", []);
    CallText(5, 1, "bar", []);
    assert "foo" + "()" == "foo()" && "bar" + "()" == "bar()";
    FromNone(0);
    StepWhile(l, w);
    assert Heads(l.g.nodes) == [("while", false)] && l.g.edges == {} && l.exitNodes == [0];
    FromOne(0, 1);
    StepCall(l, foo);
    assert Heads(l.g.nodes) == [("while", false), ("foo()", true)] && l.g.edges == {(0, 1)} && l.exitNodes == [1];
    FromOne(1, 2);
    StepCall(l, bar);
  }

  /** The handlers of the while test, called one by one: enter_while, enter_function_call twice, exit_while. */
  method WhileByHand() returns (h: Listener)
    ensures fresh(h) && fresh(h.g) && fresh(h.reg) && fresh(h.log)
    ensures At(h, [("while", false), ("foo()", true), ("bar()", true)], {(0, 1), (1, 2), (2, 0)}, [2, 0], map[], NoFrames())
    ensures h.St() == WhileExited(CallEntered(CallEntered(WhileEntered(Initial(), OneLine(), WhileLoop()), OneLine(), WhileFoo()), OneLine(), WhileBar()))
  {
    hide Unparse, Listener.Valid, Unsolved, Listener.Trk, Linked, WhileEntered, WhileExited, CallEntered;
    h := Start();
    WhileBody(h);
    StepExitWhile(h, WhileLoop());
  }

  /** A call with no arguments renders as its own id alone. */
  lemma CallRendered(s: Snapshot, m: seq<Loc>, n: Node)
    requires n.kind.FunctionCall? && n.kind.args == [] && s.ctl.doNotParse == 0
    ensures CallEntered(s, m, n).trk.traversed == s.trk.traversed + [n.id]
    ensures CallEntered(s, m, n).ctl.doNotParse == 0
  {
    hide Shared, Built, Enrolled, Walked, Visited, WalkedAll;
    assert Unparse(n).touched == [n.id];
    var s1 := Prepared(s, n, None);
    assert s1.trk.traversed == s.trk.traversed + [n.id] && s1.ctl == s.ctl;
  }

  /** enter_while renders the loop's condition, marking it traversed. */
  lemma WhileCondRendered()
    ensures WhileEntered(Initial(), OneLine(), WhileLoop()).trk.traversed == [2]
    ensures WhileEntered(Initial(), OneLine(), WhileLoop()).ctl.doNotParse == 0
  {
    hide CallEntered, WhileExited, Walked, Visited, WalkedAll;
    assert Unparse(WhileLoop().kind.cond).touched == [2];
  }

  /**
   * Once the condition is traversed, the walk skips it, and the block's
   * only callbacks with a handler are the two enter_function_call.
   */
  lemma {:induction false} WhileBodyWalked(s: Snapshot, m: seq<Loc>)
    requires s.trk.traversed == [2] && s.ctl.doNotParse == 0
    ensures Walked(s, m, WhileLoop().kind.cond) == s
    ensures Walked(s, m, WhileLoop().kind.body) == CallEntered(CallEntered(s, m, WhileFoo()), m, WhileBar())
  {
    hide WhileEntered, CallEntered, WhileExited, Unparse;
    var b := WhileLoop().kind.body;
    var s1 := CallEntered(s, m, WhileFoo());
    CallRendered(s, m, WhileFoo());
    assert Walked(s, m, b) == Visited(s, m, b) == WalkedAll(s, m, [WhileFoo(), WhileBar()]);
    assert WalkedAll(s, m, [WhileFoo(), WhileBar()]) == Walked(WalkedAll(s, m, [WhileFoo()]), m, WhileBar());
    assert WalkedAll(s, m, [WhileFoo()]) == Walked(WalkedAll(s, m, []), m, WhileFoo()) == s1;
    assert Walked(s1, m, WhileBar()) == Visited(s1, m, WhileBar());
  }

  /** A while loop walked first is entered, its condition and body walked, and exited. */
  lemma {:induction false} WhileTreeWalked(s: Snapshot, m: seq<Loc>)
    requires s.trk.traversed == []
    ensures WalkedAll(s, m, [WhileLoop()]) ==
      WhileExited(Walked(Walked(WhileEntered(s, m, WhileLoop()), m, WhileLoop().kind.cond), m, WhileLoop().kind.body))
  {
    hide WhileEntered, CallEntered, WhileExited, Unparse;
    var t := WhileLoop();
    assert WalkedAll(s, m, [t]) == Walked(WalkedAll(s, m, []), m, t) == Visited(s, m, t);
  }

  /** The walk of the while test reaches the state of its handlers called one by one. */
  lemma WhileWalk()
    ensures WalkedAll(Initial(), OneLine(), [WhileLoop()]) ==
      WhileExited(CallEntered(CallEntered(WhileEntered(Initial(), OneLine(), WhileLoop()), OneLine(), WhileFoo()), OneLine(), WhileBar()))
  {
    hide Unparse, Walked, Visited, WalkedAll;
    WhileCondRendered();
    WhileBodyWalked(WhileEntered(Initial(), OneLine(), WhileLoop()), OneLine());
    WhileTreeWalked(Initial(), OneLine());
  }

  /** Every node of the while test is on line 1, so any line map of two or more entries covers it. */
  lemma WhileFits(m: nat)
    requires m > 1
    ensures FitsAll([WhileLoop()], m, false)
  {
    hide Unparse;
    assert Fits(WhileFoo(), m, false) && Fits(WhileBar(), m, false);
    assert FitsAll([WhileFoo(), WhileBar()], m, false);
    assert Fits(WhileLoop().kind.body, m, false) && Fits(WhileLoop().kind.cond, m, false);
    assert Fits(WhileLoop(), m, false);
  }

  /**
   * The traverser's walk of the while test leaves the listener where the
   * handlers called one by one leave it, and its log is a walk of the tree.
   */
  method WhileTraversed() returns (l: Listener)
    ensures fresh(l) && fresh(l.g) && fresh(l.reg) && fresh(l.log)
    ensures At(l, [("while", false), ("foo()", true), ("bar()", true)], {(0, 1), (1, 2), (2, 0)}, [2, 0], map[], NoFrames())
    ensures WalkAll([WhileLoop()], l.log.calls)
  {
    hide Unparse, SinksOf, CallEdgesBelow, Listener.Valid, Unsolved, Solved, Listener.Trk, Linked, WhileEntered, WhileExited, CallEntered, WalkedAll, WalkAll,
      FitsAll, Heads, WhileLoop, WhileFoo, WhileBar, Walked, Visited, Initial;
    l := Start();
    WhileFits(|OneLine()|);
    ghost var ev := TraverseList([WhileLoop()], l);
    assert l.log.calls == ev;
    var h := WhileByHand();
    WhileWalk();
    SameState(l, h);
  }

  /** The call edges of `foobar()` to the one-node body of `foobar`: there and back. */
  lemma FunctionCallEdges(nodes: seq<CodeNode>)
    requires Heads(nodes) == [("echo", false), ("foobar()", true), ("echo", false)]
    ensures CallEdgesBelow(nodes, map[FoobarId() := (0, 0)], 3) == {(1, 0), (0, 1)}
  {
    assert Heads(nodes)[0] == ("echo", false) && Heads(nodes)[1] == ("foobar()", true) && Heads(nodes)[2] == ("echo", false);
    assert LinkedCall(nodes, map[FoobarId() := (0, 0)], 1);
    assert forall k :: LinkedCall(nodes, map[FoobarId() := (0, 0)], k) ==> k == 1;
  }

  /** The function id of `foobar()`. */
  function FoobarId(): string {
    assert "foobar()"[6] == '(' && "foobar()"[7] == ')';
    GenerateFuncId("foobar()").value
  }

  /**
   * `<?php function foobar() { echo "Hello"; }; foobar(); echo "The end";`:
   * the echo in the body is the function's entry and exit and is not linked
   * to what precedes the declaration; the frontier before the declaration
   * (empty) is restored after it, the call leads to the last echo, and
   * `get_graph` links the call to the body and back. Three nodes and three
   * edges.
   */
  method FunctionScenario() returns (l: Listener)
    ensures Heads(l.g.nodes) == [("echo", false), ("foobar()", true), ("echo", false)]
    ensures l.g.edges == {(1, 2), (1, 0), (0, 1)}
  {
    l := Start();
    FunctionDeclared(l);
    FunctionUsed(l);
  }

  /** The declaration: its body's echo becomes the function's entry and exit. */
  method FunctionDeclared(l: Listener)
    requires At(l, [], {}, [], map[], NoFrames())
    modifies l, l.g, l.reg, l.log
    ensures At(l, [("echo", false)], {}, [], map[FoobarId() := (0, 0)], NoFrames())
  {
    hide Unparse, Listener.Valid, Unsolved, Listener.St, Listener.Trk, Linked;
    var hello := Node(2, 1, Echo([Node(3, 1, Lit(StrVal("Hello")))]));
    var decl := Node(1, 1, Function("foobar", [], [hello]));
    CallText(1, 1, "foobar", [hello]);
    assert "foobar" + "()" == "foobar()";
    StepDeclare(l, decl);
    assert l.inFunctions == [(FoobarId(), [])] && l.functions == map[];
    StepEchoFirst(l, hello);
    StepEndDeclare(l, decl);
  }

  /** The call, the last echo, then get_graph. */
  method FunctionUsed(l: Listener)
    requires At(l, [("echo", false)], {}, [], map[FoobarId() := (0, 0)], NoFrames())
    modifies l, l.g, l.reg, l.log
    ensures Heads(l.g.nodes) == [("echo", false), ("foobar()", true), ("echo", false)]
    ensures l.g.edges == {(1, 2), (1, 0), (0, 1)}
  {
    hide Unparse, CallEdgesBelow, Listener.Valid, Unsolved, Solved, Listener.St, Listener.Trk, Linked;
    var call := Node(4, 1, FunctionCall("foobar", []));
    var theEnd := Node(5, 1, Echo([Node(6, 1, Lit(StrVal("The end")))]));
    CallText(4, 1, "foobar", []);
    assert "foobar" + "()" == "foobar()";
    FromNone(1);
    StepCall(l, call);
    assert Heads(l.g.nodes) == [("echo", false), ("foobar()", true)] && l.g.edges == {} && l.exitNodes == [1];
    FromOne(1, 2);
    StepEcho(l, theEnd);
    assert Heads(l.g.nodes) == [("echo", false), ("foobar()", true), ("echo", false)];
    assert l.g.edges == {(1, 2)} && l.exitNodes == [2] && l.functions == map[FoobarId() := (0, 0)];
    StepGraph(l);
    FunctionCallEdges(l.g.nodes);
    assert l.g.edges == {(1, 2)} + {(1, 0), (0, 1)};
  }

  /** `$tainted = $_GET["userData"]`. */
  function ReadGet(): Node {
    Node(1, 1, Assignment(Node(2, 1, Variable("$tainted")),
                          Node(3, 1, ArrayOffset(Node(4, 1, Variable("$_GET")), Some(Node(5, 1, Lit(StrVal("userData"))))))))
  }

  /** `$a = $tainted . "foobar"`. */
  function PassOn(): Node {
    Node(6, 1, Assignment(Node(7, 1, Variable("$a")),
                          Node(8, 1, BinaryOp(".", Node(9, 1, Variable("$tainted")), Node(10, 1, Lit(StrVal("foobar")))))))
  }

  /** What the first assignment renders to and how the heuristic rates its value. */
  lemma ReadGetNames()
    ensures Unparse(ReadGet().kind.target).text == "$tainted" && Unparse(ReadGet().kind.target).vars == {"$tainted"}
    ensures Unparse(ReadGet()).vars == {"$tainted", "$_GET"} && StaticTaint(ReadGet().kind.expr) == MaybeTainted
  {
  }

  /** The same for the second assignment. */
  lemma PassOnNames()
    ensures Unparse(PassOn().kind.target).text == "$a" && Unparse(PassOn().kind.target).vars == {"$a"}
    ensures Unparse(PassOn()).vars == {"$a", "$tainted"} && StaticTaint(PassOn().kind.expr) == MaybeTainted
  {
  }

  /** With the single edge `0 -> 1`, the first node has no IN and its own bit reaches the second. */
  lemma TwoNodeFlow(nodes: seq<CodeNode>)
    requires |nodes| == 2 && Solved(nodes, {(0, 1)}) && 0 in nodes[0].gen
    ensures nodes[0].inset == {} && 0 in nodes[1].inset
  {
    assert nodes[0].inset == InOf(nodes, {(0, 1)}, 0);
    assert 0 in nodes[0].outset;
  }

  /**
   * The two nodes of the test below, once get_graph has solved the flow:
   * both MAYBE, the first reading no earlier definition, the second reading
   * `$tainted`, whose one definition (bit 0) is the first node's and reaches it.
   */
  ghost predicate ChainReady(l: Listener)
    reads l, l.g, l.reg
  {
    l.g.Coherent(l.reg) && |l.g.nodes| == 2 && Heads(l.g.nodes) == [("expression", false), ("expression", false)] &&
    l.g.edges == {(0, 1)} &&
    l.g.nodes[0].tainted == MaybeTainted && l.g.nodes[1].tainted == MaybeTainted &&
    l.g.nodes[0].inset == {} && 0 in l.g.nodes[1].inset && "$tainted" in l.g.nodes[1].vars &&
    DefsFor(l.reg.defsDict, "$tainted") == [Def(0, 0)] && l.reg.defsList == [0, 1]
  }

  /**
   * `<?php $tainted = $_GET["userData"]; $a = $tainted . "foobar";`: both
   * nodes start MAYBE; asked in turn, the first has no dependency and so is
   * tainted, and the second depends on the first and so is tainted too.
   */
  method TaintScenario() returns (l: Listener, first: bool, second: bool)
    ensures Heads(l.g.nodes) == [("expression", false), ("expression", false)] && l.g.edges == {(0, 1)}
    ensures first && second
    ensures l.g.nodes[0].tainted == Tainted && l.g.nodes[1].tainted == Tainted
  {
    l := Start();
    ChainBuilt(l);
    first, second := ChainAsked(l);
  }

  /** The two assignments, then get_graph. */
  method ChainBuilt(l: Listener)
    requires At(l, [], {}, [], map[], NoFrames()) && l.reg.defsDict == map[] && l.reg.defsList == [] && l.reg.nextBit == 0
    modifies l, l.g, l.reg, l.log
    ensures ChainReady(l)
  {
    ChainAssigned(l);
    ChainSolved(l);
  }

  /** The graph after both assignments, before get_graph. */
  ghost predicate ChainPending(l: Listener)
    reads l, l.g, l.reg
  {
    At(l, [("expression", false), ("expression", false)], {(0, 1)}, [1], map[], NoFrames()) &&
    l.g.nodes[0].tainted == MaybeTainted && l.g.nodes[1].tainted == MaybeTainted &&
    l.g.nodes[0].gen == {0} && l.g.nodes[1].vars == {"$tainted"} &&
    DefsFor(l.reg.defsDict, "$tainted") == [Def(0, 0)] && l.reg.defsList == [0, 1]
  }

  /** The graph after the first assignment. */
  ghost predicate ChainStarted(l: Listener)
    reads l, l.g, l.reg
  {
    At(l, [("expression", false)], {}, [0], map[], NoFrames()) &&
    l.g.nodes[0].tainted == MaybeTainted && l.g.nodes[0].gen == {0} &&
    DefsFor(l.reg.defsDict, "$tainted") == [Def(0, 0)] && l.reg.defsList == [0] && l.reg.nextBit == 1
  }

  /** enter_assignment for each statement. */
  method ChainAssigned(l: Listener)
    requires At(l, [], {}, [], map[], NoFrames()) && l.reg.defsDict == map[] && l.reg.defsList == [] && l.reg.nextBit == 0
    modifies l, l.g, l.reg, l.log
    ensures ChainPending(l)
  {
    ChainFirst(l);
    ChainSecond(l);
  }

  /** `$tainted = $_GET["userData"]`: the first definition of `$tainted`, bit 0. */
  method ChainFirst(l: Listener)
    requires At(l, [], {}, [], map[], NoFrames()) && l.reg.defsDict == map[] && l.reg.defsList == [] && l.reg.nextBit == 0
    modifies l, l.g, l.reg, l.log
    ensures ChainStarted(l)
  {
    hide Unparse, CallEdgesBelow, Listener.Valid, Unsolved, Solved, Listener.St, Listener.Trk, Linked, StaticTaint, Registered, TargetBits;
    ReadGetNames();
    FromNone(0);
    StepAssign(l, ReadGet());
  }

  /** `$a = $tainted . "foobar"`: reads `$tainted`, linked from the first node. */
  method ChainSecond(l: Listener)
    requires ChainStarted(l)
    modifies l, l.g, l.reg, l.log
    ensures ChainPending(l)
  {
    hide Unparse, CallEdgesBelow, Listener.Valid, Unsolved, Solved, Listener.St, Listener.Trk, Linked, StaticTaint, Registered, TargetBits;
    PassOnNames();
    FromOne(0, 1);
    StepAssign(l, PassOn());
  }

  /** get_graph: no join node and no call edges; the flow equations hold. */
  method ChainSolved(l: Listener)
    requires ChainPending(l)
    modifies l, l.g, l.reg, l.log
    ensures ChainReady(l)
  {
    hide Unparse, CallEdgesBelow, Unsolved, Solved, Listener.St, Listener.Trk, Linked, StaticTaint, Registered, TargetBits;
    ghost var before := l.g.nodes;
    StepGraph(l);
    NoCallEdges(l.g.nodes, 2);
    assert l.g.edges == {(0, 1)};
    assert l.g.nodes[0].gen == before[0].gen && l.g.nodes[0].tainted == before[0].tainted;
    assert l.g.nodes[1].vars == before[1].vars && l.g.nodes[1].tainted == before[1].tainted;
    TwoNodeFlow(l.g.nodes);
  }

  /** is_tainted on the first node, then on the second. */
  method ChainAsked(l: Listener) returns (first: bool, second: bool)
    requires ChainReady(l)
    modifies l.g
    ensures Heads(l.g.nodes) == [("expression", false), ("expression", false)] && l.g.edges == {(0, 1)}
    ensures first && second
    ensures l.g.nodes[0].tainted == Tainted && l.g.nodes[1].tainted == Tainted
  {
    ghost var before := l.g.nodes;
    first := AskFirst(l.g, l.reg);
    second := AskSecond(l.g, l.reg);
    assert Heads(l.g.nodes) == Heads(before) by {
      forall k | 0 <= k < 2 ensures Heads(l.g.nodes)[k] == Heads(before)[k] {
      }
    }
  }

  /** The first node: MAYBE with an empty IN, so it has no dependency and becomes TAINTED. */
  method AskFirst(g: Graph, reg: DefinitionRegister) returns (r: bool)
    requires g.Coherent(reg) && |g.nodes| == 2
    requires g.nodes[0].tainted == MaybeTainted && g.nodes[0].inset == {}
    modifies g
    ensures r && g.nodes == old(g.nodes)[0 := old(g.nodes)[0].(tainted := Tainted)] && g.edges == old(g.edges)
  {
    hide BoundTainted, KeepsBound, Marked, Maybes, DefBitmask;
    assert g.DepsOf(reg, 0) == {};
    r := g.IsTainted(reg, 0);
  }

  /**
   * The second node: MAYBE, reading `$tainted`, whose one definition (bit 0,
   * node 0) reaches it. Its dependency, the first node, is TAINTED, so it
   * becomes TAINTED too and the first stays so.
   */
  method AskSecond(g: Graph, reg: DefinitionRegister) returns (r: bool)
    requires g.Coherent(reg) && |g.nodes| == 2
    requires g.nodes[0].tainted == Tainted && g.nodes[1].tainted == MaybeTainted
    requires 0 in g.nodes[1].inset && "$tainted" in g.nodes[1].vars
    requires DefsFor(reg.defsDict, "$tainted") == [Def(0, 0)] && reg.defsList == [0, 1]
    modifies g
    ensures TaintOnly(old(g.nodes), g.nodes) && g.edges == old(g.edges)
    ensures r && g.nodes[0].tainted == Tainted && g.nodes[1].tainted == Tainted
  {
    hide BoundTainted, KeepsBound, Marked, Maybes, NodeDeps;
    ChainDep(reg.defsDict, reg.defsList, g.nodes[1]);
    r := g.IsTainted(reg, 1);
    assert Evolves(Tainted, g.nodes[0].tainted);
  }

  /** Definition bit 0 of `$tainted`, held by node 0, reaches a node reading `$tainted`: node 0 is among its dependencies. */
  lemma ChainDep(dict: map<string, seq<Def>>, list: seq<NodeId>, cn: CodeNode)
    requires 0 in cn.inset && "$tainted" in cn.vars
    requires DefsFor(dict, "$tainted") == [Def(0, 0)] && list == [0, 1]
    ensures 0 in NodeDeps(dict, list, cn)
  {
    assert 0 in DefBitmask(dict, cn.vars) by {
      assert BitsOf([Def(0, 0)]) == {0} by { assert [Def(0, 0)][..0] == []; }
      assert 0 in TargetBits(dict, "$tainted");
    }
    assert list[0] == 0;
  }
}
