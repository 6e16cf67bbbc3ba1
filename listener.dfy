/**
 * The control-flow-graph builder (my_php_listener.py). The listener receives
 * enter/exit callbacks from the tree walker and, for every statement it
 * recognises, adds a CodeNode to the graph and wires edges from the current
 * exit frontier to it. Besides the frontier it keeps four stacks for if,
 * for/foreach, while and do-while headers, a counter that suppresses node
 * creation inside `return` and `echo`, the stack of function declarations
 * being read, and the function table that maps a function id to the first
 * and last node of its body.
 *
 * `unparse_node` adds the names it renders to `stmt_vars`, `stmt_funcs` and
 * `stmt_consts`. A node handed those sets keeps the very same set objects, so
 * a later rendering that adds to them (the one `enter_return` does without
 * resetting first) also changes that node. The model records, per set, the
 * nodes that share it and updates them together.
 */
module PhpListener {
  import opened Wrappers
  import opened Masks
  import opened DefinitionRegistry
  import opened CodeNodes
  import opened Dataflow
  import opened Graphs
  import opened PhpAst
  import opened FuncIds
  import opened TaintHeuristic
  import opened Reach

  /** The listener's control state. */
  datatype Control = Control(
    exitNodes: seq<NodeId>,
    ifNodes: seq<(NodeId, bool)>,
    forNodes: seq<NodeId>,
    whileNodes: seq<NodeId>,
    doNodes: seq<NodeId>,
    doNotParse: int,
    inFunctions: seq<(string, seq<NodeId>)>,
    functions: map<string, (NodeId, NodeId)>)

  /** The stacks and the counter, which a complete walk of any subtree leaves as it found them. */
  datatype Frames = Frames(
    ifNodes: seq<(NodeId, bool)>, forNodes: seq<NodeId>, whileNodes: seq<NodeId>, doNodes: seq<NodeId>,
    doNotParse: int, inFunctions: seq<(string, seq<NodeId>)>)

  /**
   * The rendering state: `traversed`, the three `stmt_*` sets, and the
   * nodes holding each of those set objects.
   */
  datatype Tracking = Tracking(
    traversed: seq<nat>,
    vars: set<string>, funcs: set<string>, consts: set<string>,
    varsSharers: set<NodeId>, funcsSharers: set<NodeId>, constsSharers: set<NodeId>)

  /** The registry's three fields. */
  datatype RegState = RegState(dict: map<string, seq<Def>>, list: seq<NodeId>, next: nat)

  /** Everything a handler may change. */
  datatype Snapshot = Snapshot(nodes: seq<CodeNode>, edges: set<Edge>, ctl: Control, trk: Tracking, reg: RegState)

  /** A new listener's state over a reset registry: no nodes, no edges, empty stacks and sets. */
  function Initial(): Snapshot {
    Snapshot([], {}, Control([], [], [], [], [], 0, [], map[]), Tracking([], {}, {}, {}, {}, {}, {}), RegState(map[], [], 0))
  }

  /** The arguments a handler gives the CodeNode constructor and setters. */
  datatype NodeSpec = NodeSpec(
    loc: Loc, stmt: string, text: string, assign: Option<string>, tainted: Taint,
    vars: set<string>, funcs: set<string>, consts: set<string>, isCall: bool)

  /** A node built from its location, statement and text alone. */
  function Bare(loc: Loc, stmt: string, text: string): NodeSpec {
    NodeSpec(loc, stmt, text, None, MaybeTainted, {}, {}, {}, false)
  }

  /** The CodeNode the constructor builds from `s` against registry state `r`. */
  function Built(s: NodeSpec, r: RegState): CodeNode {
    var gen := if s.assign.Some? then Bit(r.next) else {};
    var kill := if s.assign.Some? then TargetBits(r.dict, s.assign.value) else {};
    CodeNode(s.loc, s.stmt, s.text, s.vars, s.funcs, s.consts, s.tainted, {}, gen, kill, gen, s.isCall)
  }

  /** The registry after the constructor ran for a node with target `assign` and handle `h`. */
  function Enrolled(r: RegState, assign: Option<string>, h: NodeId): RegState {
    if assign.None? then r
    else RegState(Registered(r.dict, assign.value, Def(r.next, h)), r.list + [h], r.next + 1)
  }

  /** The edges from every frontier node to `h`. */
  function FromFrontier(frontier: seq<NodeId>, h: NodeId): set<Edge> {
    set j | 0 <= j < |frontier| :: (frontier[j], h)
  }

  /** add_node's effect on the control state and the edges, for new handle `h`. */
  function Linked(c: Control, edges: set<Edge>, h: NodeId): (Control, set<Edge>) {
    if |c.inFunctions| > 0 && c.inFunctions[|c.inFunctions| - 1].0 !in c.functions then
      (c.(functions := c.functions[c.inFunctions[|c.inFunctions| - 1].0 := (h, h)], exitNodes := []), edges)
    else
      var f :=
        if |c.inFunctions| > 0 then
          var id := c.inFunctions[|c.inFunctions| - 1].0;
          c.functions[id := (c.functions[id].0, h)]
        else c.functions;
      (c.(functions := f, exitNodes := []), edges + FromFrontier(c.exitNodes, h))
  }

  /** The state after `add_node(CodeNode(...))` with the arguments `spec`. */
  function Added(s: Snapshot, spec: NodeSpec): Snapshot {
    var h := |s.nodes|;
    var l := Linked(s.ctl, s.edges, h);
    Snapshot(s.nodes + [Built(spec, s.reg)], l.1, l.0, s.trk, Enrolled(s.reg, spec.assign, h))
  }

  /** The state after `set_exit_nodes(frontier)`. */
  function Framed(s: Snapshot, frontier: seq<NodeId>): Snapshot {
    s.(ctl := s.ctl.(exitNodes := frontier))
  }

  /** `reset_tracking`: three new, empty sets that no node holds. */
  function Cleared(t: Tracking): Tracking {
    t.(vars := {}, funcs := {}, consts := {}, varsSharers := {}, funcsSharers := {}, constsSharers := {})
  }

  /** The tracking state after `unparse_node` produced rendering `r`. */
  function Rendered(t: Tracking, r: Rendering): Tracking {
    t.(traversed := t.traversed + r.touched, vars := t.vars + r.vars, funcs := t.funcs + r.funcs, consts := t.consts + r.consts)
  }

  /** Node `h` is handed the tracked sets selected by `v`, `f` and `c`. */
  function Handed(t: Tracking, h: NodeId, v: bool, f: bool, c: bool): Tracking {
    t.(varsSharers := if v then t.varsSharers + {h} else t.varsSharers,
       funcsSharers := if f then t.funcsSharers + {h} else t.funcsSharers,
       constsSharers := if c then t.constsSharers + {h} else t.constsSharers)
  }

  /** The nodes after the tracked sets changed: every holder of a set sees its new contents. */
  function Shared(nodes: seq<CodeNode>, t: Tracking): seq<CodeNode> {
    seq(|nodes|, k requires 0 <= k < |nodes| =>
      nodes[k].(vars := if k in t.varsSharers then t.vars else nodes[k].vars,
                funcs := if k in t.funcsSharers then t.funcs else nodes[k].funcs,
                consts := if k in t.constsSharers then t.consts else nodes[k].consts))
  }

  /** The state after `unparse_node` produced rendering `r`. */
  function Unparsed(s: Snapshot, r: Rendering): Snapshot {
    var t := Rendered(s.trk, r);
    s.(nodes := Shared(s.nodes, t), trk := t)
  }

  /** The state after `reset_tracking`. */
  function Reset(s: Snapshot): Snapshot {
    s.(trk := Cleared(s.trk))
  }

  /** The state after `reset_tracking`, rendering `n`, then rendering `target` if there is one. */
  function Prepared(s: Snapshot, n: Node, target: Option<Node>): Snapshot {
    var s1 := Unparsed(Reset(s), Unparse(n));
    if target.Some? then Unparsed(s1, Unparse(target.value)) else s1
  }

  /** The name a rendered assignment target defines. */
  function AssignOf(target: Option<Node>): Option<string> {
    if target.Some? then Some(Unparse(target.value).text) else None
  }

  /** The target a while condition assigns, when the condition is an assignment. */
  function WhileAssign(c: Node): Option<Node> {
    if c.kind.Assignment? then Some(c.kind.target) else None
  }

  /** No edge leaves node `x`. */
  predicate NoOut(edges: set<Edge>, x: nat) {
    forall e :: e in edges ==> e.0 != x
  }

  /** The nodes below `count` that are in `reach` and have no successor, in node order. */
  function SinksIn(edges: set<Edge>, reach: set<nat>, count: nat): (r: seq<nat>)
    ensures forall x :: x in r <==> x < count && x in reach && NoOut(edges, x)
    ensures forall i, j :: 0 <= i < j < |r| ==> r[i] < r[j]
  {
    if count == 0 then []
    else
      var prev := SinksIn(edges, reach, count - 1);
      assert forall i :: 0 <= i < |prev| ==> prev[i] in prev;
      prev + (if count - 1 in reach && NoOut(edges, count - 1) then [count - 1] else [])
  }

  /** Every out-degree-0 node reachable from `src`, in node order: the frontier `exit_if` computes. */
  ghost function SinksOf(edges: set<Edge>, src: nat, count: nat): seq<nat> {
    if count == 0 then []
    else SinksOf(edges, src, count - 1) + (if Reaches(edges, src, count - 1) && NoOut(edges, count - 1) then [count - 1] else [])
  }

  lemma {:induction false} SinksInOf(edges: set<Edge>, reach: set<nat>, src: nat, count: nat)
    requires forall x: nat :: x < count ==> (x in reach <==> Reaches(edges, src, x))
    ensures SinksIn(edges, reach, count) == SinksOf(edges, src, count)
  {
    if count > 0 {
      SinksInOf(edges, reach, src, count - 1);
    }
  }

  /**
   * The loop exits: join a frontier of more than one node through a new
   * `empty` node, add one back edge from the first frontier node to the
   * header, and for `while` put the header back on the frontier.
   */
  function ClosedLoop(s: Snapshot, header: NodeId, readd: bool): Snapshot {
    var s1 := if |s.ctl.exitNodes| > 1 then Framed(Added(s, Bare(EmptyLoc, "empty", "")), [|s.nodes|]) else s;
    var s2 := if |s1.ctl.exitNodes| > 0 then s1.(edges := s1.edges + {(s1.ctl.exitNodes[0], header)}) else s1;
    if readd then Framed(s2, s2.ctl.exitNodes + [header]) else s2
  }

  /** The assignment an if condition `a OP b` carries, left operand first. */
  function IfAssign(c: Node): Option<Node> {
    if c.kind.BinaryOp? && c.kind.left.kind.Assignment? then Some(c.kind.left.kind.target)
    else if c.kind.BinaryOp? && c.kind.right.kind.Assignment? then Some(c.kind.right.kind.target)
    else None
  }

  /** Every handle the control state holds is below `n`. */
  ghost predicate HandlesBelow(c: Control, n: nat) {
    (forall x :: x in c.exitNodes ==> x < n) &&
    (forall p :: p in c.ifNodes ==> p.0 < n) &&
    (forall x :: x in c.forNodes ==> x < n) &&
    (forall x :: x in c.whileNodes ==> x < n) &&
    (forall x :: x in c.doNodes ==> x < n) &&
    (forall f :: f in c.inFunctions ==> forall x :: x in f.1 ==> x < n) &&
    (forall id :: id in c.functions ==> c.functions[id].0 < n && c.functions[id].1 < n)
  }

  /** No frontier nodes, no edges. */
  lemma FromFrontierNone(f: seq<NodeId>, h: NodeId)
    ensures FromFrontier(f[..0], h) == {}
  {
  }

  /** One more frontier node adds its one edge to the new node. */
  lemma FromFrontierNext(f: seq<NodeId>, i: nat, h: NodeId)
    requires i < |f|
    ensures FromFrontier(f[..i + 1], h) == FromFrontier(f[..i], h) + {(f[i], h)}
  {
    assert f[..i + 1][i] == f[i];
  }

  /** add_node keeps every handle below the node count, which grows by the new node. */
  lemma LinkedHandles(c: Control, edges: set<Edge>, h: NodeId)
    requires HandlesBelow(c, h)
    ensures forall x :: x in c.exitNodes ==> x < h
    ensures HandlesBelow(Linked(c, edges, h).0, h + 1)
  {
  }

  /** Each node that holds a tracked set has that set's current contents. */
  ghost predicate SharersHold(nodes: seq<CodeNode>, t: Tracking) {
    (forall k :: k in t.varsSharers ==> k < |nodes| && nodes[k].vars == t.vars) &&
    (forall k :: k in t.funcsSharers ==> k < |nodes| && nodes[k].funcs == t.funcs) &&
    (forall k :: k in t.constsSharers ==> k < |nodes| && nodes[k].consts == t.consts)
  }

  /** Every call node's statement has a function id. */
  ghost predicate CallsNamed(nodes: seq<CodeNode>) {
    forall k :: 0 <= k < |nodes| && nodes[k].isCall ==> GenerateFuncId(nodes[k].stmt).Some?
  }

  /** Before `get_graph`: every IN is empty and every OUT is the node's gen. */
  ghost predicate Unsolved(nodes: seq<CodeNode>) {
    forall k :: 0 <= k < |nodes| ==> nodes[k].inset == {} && nodes[k].outset == nodes[k].gen
  }

  /** The id of a call node's statement. */
  function CalleeId(cn: CodeNode): string
    requires GenerateFuncId(cn.stmt).Some?
  {
    GenerateFuncId(cn.stmt).value
  }

  /** Node `k` is a call of a function in the table. */
  ghost predicate LinkedCall(nodes: seq<CodeNode>, fs: map<string, (NodeId, NodeId)>, k: nat) {
    k < |nodes| && nodes[k].isCall && GenerateFuncId(nodes[k].stmt).Some? && CalleeId(nodes[k]) in fs
  }

  /** The call edges of node `k`: to the entry of the function it calls, and back from that function's last node. */
  ghost function CallEdgesAt(nodes: seq<CodeNode>, fs: map<string, (NodeId, NodeId)>, k: nat): set<Edge> {
    if LinkedCall(nodes, fs, k) then {(k, fs[CalleeId(nodes[k])].0), (fs[CalleeId(nodes[k])].1, k)} else {}
  }

  /** The call edges of the call nodes below `i`: call to entry, and exit back to the call. */
  ghost function CallEdgesBelow(nodes: seq<CodeNode>, fs: map<string, (NodeId, NodeId)>, i: nat): set<Edge> {
    (set k | 0 <= k < i && LinkedCall(nodes, fs, k) :: (k, fs[CalleeId(nodes[k])].0)) +
    (set k | 0 <= k < i && LinkedCall(nodes, fs, k) :: (fs[CalleeId(nodes[k])].1, k))
  }

  /** The rendering of a function declaration or call has a function id. */
  lemma {:induction false} RenderedCallHasId(n: Node)
    requires n.kind.Function? || n.kind.FunctionCall?
    ensures GenerateFuncId(Unparse(n).text).Some?
  {
    var s := Unparse(n).text;
    var name := if n.kind.Function? then n.kind.name else n.kind.name;
    var mid := if n.kind.Function? then Join(ParamNames(n.kind.params), ", ") else UnparseList(n.kind.args, ", ").text;
    assert s == name + "(" + mid + ")";
    assert s[|name|] == '(' && s[|s| - 1] == ')';
  }

  /** One listener callback as the walker makes it: the hook's name and the node it is given. */
  datatype Event = Enter(hook: string, id: nat) | Exit(hook: string, id: nat)

  /** The origin get_location gives line `k`, where the line map has it. */
  function LocAt(m: seq<Loc>, k: nat): Loc {
    if k < |m| then m[k] else EmptyLoc
  }

  /*
   * What each handler does to the listener's state, as a function of the
   * state before it, the line map and the node it is given. A handler whose
   * stack it would pop is empty, or whose node is of another kind, leaves
   * the state as it was; the handlers' requires exclude those calls.
   */

  /** enter_return: see `Listener.EnterReturn`. */
  ghost function ReturnEntered(s: Snapshot, m: seq<Loc>, ctx: Node): Snapshot {
    if s.ctl.doNotParse != 0 then s.(ctl := s.ctl.(doNotParse := s.ctl.doNotParse + 1))
    else
      var s1 := Unparsed(s, Unparse(ctx));
      var s2 := Added(s1, NodeSpec(LocAt(m, ctx.line), "return", Unparse(ctx).text, None, MaybeTainted,
                                   s1.trk.vars, s1.trk.funcs, s1.trk.consts, false));
      s2.(ctl := s2.ctl.(doNotParse := 1), trk := Handed(s1.trk, |s.nodes|, true, true, true))
  }

  /** exit_return and exit_echo: one suppression level less. */
  function Resumed(s: Snapshot): Snapshot {
    s.(ctl := s.ctl.(doNotParse := s.ctl.doNotParse - 1))
  }

  /** enter_function_declaration: see `Listener.EnterFunctionDeclaration`. */
  ghost function DeclarationEntered(s: Snapshot, ctx: Node): Snapshot {
    if s.ctl.doNotParse != 0 then s
    else
      var s1 := Unparsed(s, Unparse(ctx));
      match GenerateFuncId(Unparse(ctx).text)
      case Some(id) => s1.(ctl := s1.ctl.(inFunctions := s.ctl.inFunctions + [(id, s.ctl.exitNodes)]))
      case None => s1
  }

  /** exit_function_declaration: pop the declaration and restore the frontier from before it. */
  function DeclarationExited(s: Snapshot): Snapshot {
    var fs := s.ctl.inFunctions;
    if |fs| == 0 then s
    else s.(ctl := s.ctl.(inFunctions := fs[..|fs| - 1], exitNodes := fs[|fs| - 1].1))
  }

  /** enter_function_call: see `Listener.EnterFunctionCall`. */
  ghost function CallEntered(s: Snapshot, m: seq<Loc>, ctx: Node): Snapshot {
    if s.ctl.doNotParse != 0 then s
    else
      var s1 := Prepared(s, ctx, None);
      var h := |s.nodes|;
      Framed(Added(s1, NodeSpec(LocAt(m, ctx.line), Unparse(ctx).text, "", None, MaybeTainted,
                                s1.trk.vars, s1.trk.funcs, s1.trk.consts, true)), [h]).(trk := Handed(s1.trk, h, true, true, true))
  }

  /** enter_assignment and enter_assign_op, given the target and the assigned expression. */
  ghost function Assigned(s: Snapshot, m: seq<Loc>, ctx: Node, target: Node, expr: Node): Snapshot {
    if s.ctl.doNotParse != 0 then s
    else
      var a := Unparse(target).text;
      var s1 := Prepared(s, ctx, Some(target));
      var h := |s.nodes|;
      Framed(Added(s1, NodeSpec(LocAt(m, ctx.line), "expression", Unparse(ctx).text, Some(a), StaticTaint(expr),
                                s1.trk.vars - {a}, s1.trk.funcs, s1.trk.consts, false)), [h]).(trk := Handed(s1.trk, h, false, true, true))
  }

  /** An echo node is NOT tainted when every echoed expression is statically untainted, and MAYBE otherwise. */
  function EchoTaint(ns: seq<Node>): Taint {
    if forall x :: x in ns ==> StaticTaint(x) == NotTainted then NotTainted else MaybeTainted
  }

  /** enter_echo: see `Listener.EnterEcho`. */
  ghost function EchoEntered(s: Snapshot, m: seq<Loc>, ctx: Node): Snapshot {
    if !ctx.kind.Echo? then s
    else if s.ctl.doNotParse != 0 then s.(ctl := s.ctl.(doNotParse := s.ctl.doNotParse + 1))
    else
      var r := UnparseList(ctx.kind.nodes, "");
      var s0 := Reset(s);
      var s1 := Unparsed(s0.(trk := s0.trk.(funcs := {"echo"})), r);
      var h := |s.nodes|;
      var s2 := Framed(Added(s1, NodeSpec(LocAt(m, ctx.line), "echo", "echo " + r.text, None, EchoTaint(ctx.kind.nodes),
                                          s1.trk.vars, s1.trk.funcs, s1.trk.consts, false)), [h]);
      s2.(ctl := s2.ctl.(doNotParse := 1), trk := Handed(s1.trk, h, true, true, true))
  }

  /** enter_if: see `Listener.EnterIf`. */
  ghost function IfEntered(s: Snapshot, m: seq<Loc>, ctx: Node): Snapshot {
    if s.ctl.doNotParse != 0 || !ctx.kind.If? then s
    else
      var c := ctx.kind.cond;
      var s1 := Prepared(s, c, IfAssign(c));
      var a := AssignOf(IfAssign(c));
      var vars := if a.Some? then s1.trk.vars - {a.value} else s1.trk.vars;
      var h := |s.nodes|;
      var s2 := Framed(Added(s1, NodeSpec(LocAt(m, ctx.line), "if", "if (" + Unparse(c).text + ")", a, MaybeTainted,
                                          vars, s1.trk.funcs, {}, false)), [h]);
      s2.(ctl := s2.ctl.(ifNodes := s2.ctl.ifNodes + [(h, false)]), trk := Handed(s1.trk, h, false, true, false))
  }

  /** exit_if: see `Listener.ExitIf`. */
  ghost function IfExited(s: Snapshot): Snapshot {
    var ifs := s.ctl.ifNodes;
    if s.ctl.doNotParse != 0 || |ifs| == 0 then s
    else
      var top := ifs[|ifs| - 1];
      var frontier := SinksOf(s.edges, top.0, |s.nodes|) + (if top.1 then [] else [top.0]);
      s.(ctl := s.ctl.(ifNodes := ifs[..|ifs| - 1], exitNodes := frontier))
  }

  /** enter_else: see `Listener.EnterElse`. */
  function ElseEntered(s: Snapshot): Snapshot {
    var ifs := s.ctl.ifNodes;
    if s.ctl.doNotParse != 0 || |ifs| == 0 then s
    else
      var top := ifs[|ifs| - 1];
      s.(ctl := s.ctl.(exitNodes := [top.0], ifNodes := ifs[..|ifs| - 1] + [(top.0, true)]))
  }

  /** enter_while: see `Listener.EnterWhile`. */
  ghost function WhileEntered(s: Snapshot, m: seq<Loc>, ctx: Node): Snapshot {
    if s.ctl.doNotParse != 0 || !ctx.kind.While? then s
    else
      var c := ctx.kind.cond;
      var s1 := Prepared(s, c, WhileAssign(c));
      var taint := if c.kind.Assignment? then StaticTaint(c.kind.target) else MaybeTainted;
      var h := |s.nodes|;
      var s2 := Framed(Added(s1, NodeSpec(LocAt(m, ctx.line), "while", "while (" + Unparse(c).text + ")", AssignOf(WhileAssign(c)), taint,
                                          s1.trk.vars, s1.trk.funcs, s1.trk.consts, false)), [h]);
      s2.(ctl := s2.ctl.(whileNodes := s2.ctl.whileNodes + [h]), trk := Handed(s1.trk, h, true, true, true))
  }

  /** exit_while: see `Listener.ExitWhile`. */
  function WhileExited(s: Snapshot): Snapshot {
    var ws := s.ctl.whileNodes;
    if s.ctl.doNotParse != 0 || |ws| == 0 then s
    else ClosedLoop(s.(ctl := s.ctl.(whileNodes := ws[..|ws| - 1])), ws[|ws| - 1], true)
  }

  /** enter_do_while: see `Listener.EnterDoWhile`. */
  function DoEntered(s: Snapshot, m: seq<Loc>, ctx: Node): Snapshot {
    if s.ctl.doNotParse != 0 then s
    else
      var h := |s.nodes|;
      var s1 := Framed(Added(s, Bare(LocAt(m, ctx.line), "do", "")), [h]);
      s1.(ctl := s1.ctl.(doNodes := s1.ctl.doNodes + [h]))
  }

  /** exit_do_while: see `Listener.ExitDoWhile`. */
  ghost function DoExited(s: Snapshot, m: seq<Loc>, ctx: Node): Snapshot {
    var ds := s.ctl.doNodes;
    if s.ctl.doNotParse != 0 || |ds| == 0 || !ctx.kind.DoWhile? then s
    else
      var d := ds[|ds| - 1];
      var s0 := Prepared(s, ctx.kind.cond, None);
      var s1 := s0.(ctl := s0.ctl.(doNodes := s0.ctl.doNodes[..|s0.ctl.doNodes| - 1]));
      var h := |s.nodes|;
      var s2 := Framed(Added(s1, NodeSpec(LocAt(m, ctx.line), "while", "while (" + Unparse(ctx.kind.cond).text + ")", None, MaybeTainted,
                                          s1.trk.vars, s1.trk.funcs, s1.trk.consts, false)), [h]);
      s2.(edges := s2.edges + {(h, d)}, trk := Handed(s1.trk, h, true, true, true))
  }

  /** enter_for (`for`, text `for`) and enter_foreach (`foreach`, empty text): a header node pushed on the for stack. */
  function ForEntered(s: Snapshot, m: seq<Loc>, ctx: Node, stmt: string, text: string): Snapshot {
    if s.ctl.doNotParse != 0 then s
    else
      var h := |s.nodes|;
      var s1 := Framed(Added(s, Bare(LocAt(m, ctx.line), stmt, text)), [h]);
      s1.(ctl := s1.ctl.(forNodes := s1.ctl.forNodes + [h]))
  }

  /** exit_for and exit_foreach: pop the header and close the loop without putting it back. */
  function ForExited(s: Snapshot): Snapshot {
    var fs := s.ctl.forNodes;
    if s.ctl.doNotParse != 0 || |fs| == 0 then s
    else ClosedLoop(s.(ctl := s.ctl.(forNodes := fs[..|fs| - 1])), fs[|fs| - 1], false)
  }

  /** The callbacks made on one listener so far, in order. */
  class CallLog {
    ghost var calls: seq<Event>

    constructor ()
      ensures calls == []
    {
      calls := [];
    }
  }

  class Listener {
    const g: Graph
    const reg: DefinitionRegister
    const lineMap: seq<Loc>
    const name: string
    /** The callbacks made on this listener; no handler reads it. */
    const log: CallLog

    var exitNodes: seq<NodeId>
    var ifNodes: seq<(NodeId, bool)>
    var forNodes: seq<NodeId>
    var whileNodes: seq<NodeId>
    var doNodes: seq<NodeId>
    var doNotParse: int
    var traversed: seq<nat>
    var stmtVars: set<string>
    var stmtFuncs: set<string>
    var stmtConsts: set<string>
    var varsSharers: set<NodeId>
    var funcsSharers: set<NodeId>
    var constsSharers: set<NodeId>
    var inFunctions: seq<(string, seq<NodeId>)>
    var functions: map<string, (NodeId, NodeId)>

    function Ctl(): Control
      reads this
    {
      Control(exitNodes, ifNodes, forNodes, whileNodes, doNodes, doNotParse, inFunctions, functions)
    }

    function Trk(): Tracking
      reads this
    {
      Tracking(traversed, stmtVars, stmtFuncs, stmtConsts, varsSharers, funcsSharers, constsSharers)
    }

    function Regs(): RegState
      reads reg
    {
      RegState(reg.defsDict, reg.defsList, reg.nextBit)
    }

    function Stacks(): Frames
      reads this
    {
      Frames(ifNodes, forNodes, whileNodes, doNodes, doNotParse, inFunctions)
    }

    function St(): Snapshot
      reads this, g, reg
    {
      Snapshot(g.nodes, g.edges, Ctl(), Trk(), Regs())
    }

    ghost predicate Valid()
      reads this, g, reg
    {
      g.Valid() && g.Coherent(reg) && MasksBelow(g.nodes, reg.nextBit) &&
      HandlesBelow(Ctl(), |g.nodes|) && SharersHold(g.nodes, Trk()) && CallsNamed(g.nodes)
    }

    /** A listener over a new, empty graph; the registry has been reset for this build. */
    constructor (r: DefinitionRegister, lines: seq<Loc>, graphName: string)
      requires r.Valid() && r.defsList == []
      ensures Valid() && Unsolved(g.nodes)
      ensures reg == r && lineMap == lines && name == graphName && fresh(g)
      ensures g.nodes == [] && g.edges == {}
      ensures Ctl() == Control([], [], [], [], [], 0, [], map[])
      ensures Trk() == Tracking([], {}, {}, {}, {}, {}, {})
      ensures fresh(log) && log.calls == []
    {
      g := new Graph();
      log := new CallLog();
      reg := r;
      lineMap := lines;
      name := graphName;
      exitNodes := [];
      ifNodes := [];
      forNodes := [];
      whileNodes := [];
      doNodes := [];
      doNotParse := 0;
      traversed := [];
      stmtVars := {};
      stmtFuncs := {};
      stmtConsts := {};
      varsSharers := {};
      funcsSharers := {};
      constsSharers := {};
      inFunctions := [];
      functions := map[];
    }

    /** A callback the listener inherits from the generated base listener, which does nothing. */
    ghost method Hook(e: Event)
      modifies log
      ensures log.calls == old(log.calls) + [e]
    {
      log.calls := log.calls + [e];
    }

    /** get_location: the origin of a line of the preprocessed text. Every entry is a pair, so the fallback never applies. */
    function GetLocation(lineNo: nat): Loc
      requires lineNo < |lineMap|
    {
      lineMap[lineNo]
    }

    /** is_traversed: whether `unparse_node` has already rendered the node with this id. */
    function IsTraversed(id: nat): bool
      reads this
    {
      id in traversed
    }

    /**
     * add_node. Inside a function body the first node becomes the function's
     * entry and exit and gets no edges; a later node becomes its exit. Every
     * other node gets an edge from each frontier node. The frontier is
     * emptied in every case.
     */
    method AddNode(cn: CodeNode) returns (h: NodeId)
      requires g.Valid() && HandlesBelow(Ctl(), |g.nodes|)
      modifies this`exitNodes, this`functions, g
      ensures Stacks() == old(Stacks())
      ensures h == |old(g.nodes)| && g.nodes == old(g.nodes) + [cn]
      ensures (Ctl(), g.edges) == Linked(old(Ctl()), old(g.edges), h)
      ensures Trk() == old(Trk())
      ensures g.Valid() && HandlesBelow(Ctl(), |g.nodes|)
      ensures exitNodes == []
      ensures |old(inFunctions)| == 0 ==>
        g.edges == old(g.edges) + FromFrontier(old(exitNodes), h) && functions == old(functions)
      ensures |old(inFunctions)| > 0 ==>
        var id := old(inFunctions)[|old(inFunctions)| - 1].0;
        if id !in old(functions) then functions == old(functions)[id := (h, h)] && g.edges == old(g.edges)
        else functions == old(functions)[id := (old(functions)[id].0, h)] &&
             g.edges == old(g.edges) + FromFrontier(old(exitNodes), h)
    {
      hide HandlesBelow, FromFrontier;
      LinkedHandles(Ctl(), g.edges, |g.nodes|);
      h := g.AddNode(cn);
      if |inFunctions| > 0 {
        var id := inFunctions[|inFunctions| - 1].0;
        if id !in functions {
          functions := functions[id := (h, h)];
          exitNodes := [];
          return;
        }
        functions := functions[id := (functions[id].0, h)];
      }
      ghost var c := Ctl();
      FromFrontierNone(exitNodes, h);
      var i := 0;
      while i < |exitNodes|
        invariant 0 <= i <= |exitNodes|
        invariant Ctl() == c && Trk() == old(Trk())
        invariant forall x :: x in exitNodes ==> x < |g.nodes|
        invariant g.nodes == old(g.nodes) + [cn]
        invariant g.edges == old(g.edges) + FromFrontier(exitNodes[..i], h)
        invariant g.Valid()
      {
        assert exitNodes[i] in exitNodes;
        FromFrontierNext(exitNodes, i, h);
        g.AddEdge(exitNodes[i], h);
        i := i + 1;
      }
      assert exitNodes[..i] == exitNodes;
      exitNodes := [];
    }

    /** `add_node(CodeNode(...))`: build the node, registering its target, and add it. */
    method AddNew(spec: NodeSpec) returns (h: NodeId)
      requires Valid() && Unsolved(g.nodes)
      requires spec.isCall ==> GenerateFuncId(spec.stmt).Some?
      modifies this`exitNodes, this`functions, g, reg
      ensures Stacks() == old(Stacks())
      ensures Valid() && Unsolved(g.nodes)
      ensures h == |old(g.nodes)|
      ensures St() == Added(old(St()), spec)
    {
      hide SharersHold, CallsNamed, Unsolved, MasksBelow;
      ghost var r0 := Regs();
      ghost var n0, t0 := g.nodes, Trk();
      TargetBitsBelowAll(reg.defsDict, reg.nextBit, spec.assign);
      var cn := NewCodeNode(reg, |g.nodes|, spec.loc, spec.stmt, spec.text, spec.assign, spec.tainted);
      cn := cn.(vars := spec.vars, funcs := spec.funcs, consts := spec.consts, isCall := spec.isCall);
      assert cn == Built(spec, r0);
      h := AddNode(cn);
      assert Regs() == Enrolled(r0, spec.assign, h);
      AppendKeeps(n0, cn, t0, r0.next, reg.nextBit);
    }

    /** set_exit_nodes, given a single node or a list. */
    method SetExitNodes(frontier: seq<NodeId>)
      requires Valid() && forall x :: x in frontier ==> x < |g.nodes|
      modifies this`exitNodes
      ensures Stacks() == old(Stacks())
      ensures Valid()
      ensures St() == Framed(old(St()), frontier)
    {
      exitNodes := frontier;
    }

    /** add_exit_node. */
    method AddExitNode(x: NodeId)
      requires Valid() && x < |g.nodes|
      modifies this`exitNodes
      ensures Stacks() == old(Stacks())
      ensures Valid()
      ensures St() == Framed(old(St()), old(exitNodes) + [x])
    {
      exitNodes := exitNodes + [x];
    }

    /** add_edge. */
    method AddEdge(a: NodeId, b: NodeId)
      requires Valid() && a < |g.nodes| && b < |g.nodes|
      modifies g`edges
      ensures Stacks() == old(Stacks())
      ensures Valid()
      ensures St() == old(St()).(edges := old(g.edges) + {(a, b)})
    {
      g.AddEdge(a, b);
    }

    /** reset_tracking. */
    method ResetTracking()
      requires Valid()
      modifies this`stmtVars, this`stmtFuncs, this`stmtConsts, this`varsSharers, this`funcsSharers, this`constsSharers
      ensures Stacks() == old(Stacks())
      ensures Valid()
      ensures St() == Reset(old(St()))
    {
      hide HandlesBelow, MasksBelow, CallsNamed, Unsolved;
      ghost var c0 := Ctl();
      stmtVars := {};
      stmtFuncs := {};
      stmtConsts := {};
      varsSharers := {};
      funcsSharers := {};
      constsSharers := {};
      assert Ctl() == c0;
    }

    /** Record a rendering in the tracked state: its nodes as traversed, its names in the tracked sets. */
    method Track(r: Rendering)
      modifies this`traversed, this`stmtVars, this`stmtFuncs, this`stmtConsts
      ensures Trk() == Rendered(old(Trk()), r)
      ensures Ctl() == old(Ctl()) && Regs() == old(Regs())
    {
      traversed := traversed + r.touched;
      stmtVars := stmtVars + r.vars;
      stmtFuncs := stmtFuncs + r.funcs;
      stmtConsts := stmtConsts + r.consts;
    }

    /**
     * unparse_node, given the rendering of the node: record the rendered
     * nodes as traversed and add the names to the tracked sets, which every
     * node holding them sees.
     */
    method Apply(r: Rendering) returns (text: string)
      requires Valid()
      modifies this`traversed, this`stmtVars, this`stmtFuncs, this`stmtConsts, g`nodes
      ensures Stacks() == old(Stacks())
      ensures Valid()
      ensures old(Unsolved(g.nodes)) ==> Unsolved(g.nodes)
      ensures text == r.text
      ensures St() == Unparsed(old(St()), r)
    {
      hide Shared, NamesOnly;
      ghost var c0, r0 := Ctl(), Regs();
      ghost var t := Rendered(Trk(), r);
      assert forall k :: k in t.varsSharers + t.funcsSharers + t.constsSharers ==> k < |g.nodes|;
      SharedKeeps(g.nodes, t, reg.nextBit);
      Track(r);
      g.nodes := Shared(g.nodes, Trk());
      assert Ctl() == c0;
      assert Regs() == r0;
      assert g.Valid() && g.Coherent(reg);
      assert HandlesBelow(Ctl(), |g.nodes|);
      text := r.text;
    }

    /** unparse_node. */
    method UnparseNode(n: Node) returns (text: string)
      requires Valid()
      modifies this`traversed, this`stmtVars, this`stmtFuncs, this`stmtConsts, g`nodes
      ensures Stacks() == old(Stacks())
      ensures Valid()
      ensures old(Unsolved(g.nodes)) ==> Unsolved(g.nodes)
      ensures text == Unparse(n).text
      ensures St() == Unparsed(old(St()), Unparse(n))
    {
      text := Apply(Unparse(n));
    }

    /**
     * The opening every statement handler shares: `reset_tracking`, render
     * `n`, then render the assignment target, if there is one.
     */
    method Prepare(n: Node, target: Option<Node>) returns (text: string, assign: Option<string>)
      requires Valid()
      modifies this`traversed, this`stmtVars, this`stmtFuncs, this`stmtConsts, this`varsSharers, this`funcsSharers, this`constsSharers, g`nodes
      ensures Stacks() == old(Stacks())
      ensures Valid()
      ensures old(Unsolved(g.nodes)) ==> Unsolved(g.nodes)
      ensures text == Unparse(n).text && assign == AssignOf(target)
      ensures St() == Prepared(old(St()), n, target)
      ensures |g.nodes| == |old(g.nodes)|
    {
      ResetTracking();
      text := UnparseNode(n);
      assign := None;
      if target.Some? {
        var a := UnparseNode(target.value);
        assign := Some(a);
      }
    }

    /** Hand node `h` the tracked sets selected by `v`, `f` and `c`: from now on it holds the same set objects. */
    method Hand(h: NodeId, v: bool, f: bool, c: bool)
      requires Valid() && h < |g.nodes|
      requires v ==> g.nodes[h].vars == stmtVars
      requires f ==> g.nodes[h].funcs == stmtFuncs
      requires c ==> g.nodes[h].consts == stmtConsts
      modifies this`varsSharers, this`funcsSharers, this`constsSharers
      ensures Stacks() == old(Stacks())
      ensures Valid()
      ensures St() == old(St()).(trk := Handed(old(Trk()), h, v, f, c))
    {
      hide HandlesBelow, MasksBelow, CallsNamed, Unsolved;
      ghost var c0 := Ctl();
      if v { varsSharers := varsSharers + {h}; }
      if f { funcsSharers := funcsSharers + {h}; }
      if c { constsSharers := constsSharers + {h}; }
      assert Ctl() == c0;
    }

    /**
     * `set_exit_nodes(add_node(cn))` for the node built from `spec`, which
     * holds the tracked sets selected by `v`, `f` and `c`: the new node is
     * the whole frontier.
     */
    method Emit(spec: NodeSpec, v: bool, f: bool, c: bool) returns (h: NodeId)
      requires Valid() && Unsolved(g.nodes)
      requires spec.isCall ==> GenerateFuncId(spec.stmt).Some?
      requires v ==> spec.vars == stmtVars
      requires f ==> spec.funcs == stmtFuncs
      requires c ==> spec.consts == stmtConsts
      modifies this`exitNodes, this`functions, this`varsSharers, this`funcsSharers, this`constsSharers, g, reg
      ensures Stacks() == old(Stacks())
      ensures Valid() && Unsolved(g.nodes)
      ensures h == |old(g.nodes)|
      ensures St() == Framed(Added(old(St()), spec), [h]).(trk := Handed(old(Trk()), h, v, f, c))
    {
      ghost var s0 := St();
      h := AddNew(spec);
      ghost var s1 := St();
      Hand(h, v, f, c);
      assert St() == s1.(trk := Handed(s0.trk, h, v, f, c));
      SetExitNodes([h]);
    }

    /** `stmt_funcs.add(f)` on a set no node holds. */
    method TrackFunc(f: string)
      requires Valid() && funcsSharers == {}
      modifies this`stmtFuncs
      ensures Stacks() == old(Stacks())
      ensures Valid()
      ensures St() == old(St()).(trk := old(Trk()).(funcs := old(stmtFuncs) + {f}))
    {
      stmtFuncs := stmtFuncs + {f};
    }

    /** The suppression counter moves by `d`. */
    method Suppress(d: int)
      requires Valid()
      modifies this`doNotParse
      ensures Valid()
      ensures St() == old(St()).(ctl := old(Ctl()).(doNotParse := old(doNotParse) + d))
    {
      CounterOnly(Ctl(), doNotParse + d, |g.nodes|);
      doNotParse := doNotParse + d;
    }

    method PushIf(p: (NodeId, bool))
      requires Valid() && p.0 < |g.nodes|
      modifies this`ifNodes
      ensures Valid()
      ensures St() == old(St()).(ctl := old(Ctl()).(ifNodes := old(ifNodes) + [p]))
    {
      ifNodes := ifNodes + [p];
    }

    method PopIf() returns (p: (NodeId, bool))
      requires Valid() && |ifNodes| > 0
      modifies this`ifNodes
      ensures Valid() && p.0 < |g.nodes|
      ensures p == old(ifNodes)[|old(ifNodes)| - 1]
      ensures Stacks() == old(Stacks()).(ifNodes := ifNodes)
      ensures St() == old(St()).(ctl := old(Ctl()).(ifNodes := old(ifNodes)[..|old(ifNodes)| - 1]))
    {
      p := ifNodes[|ifNodes| - 1];
      assert p in ifNodes;
      ifNodes := ifNodes[..|ifNodes| - 1];
    }

    method PushFor(x: NodeId)
      requires Valid() && x < |g.nodes|
      modifies this`forNodes
      ensures Valid()
      ensures St() == old(St()).(ctl := old(Ctl()).(forNodes := old(forNodes) + [x]))
    {
      forNodes := forNodes + [x];
    }

    method PopFor() returns (x: NodeId)
      requires Valid() && |forNodes| > 0
      modifies this`forNodes
      ensures Valid() && x < |g.nodes|
      ensures x == old(forNodes)[|old(forNodes)| - 1]
      ensures Stacks() == old(Stacks()).(forNodes := forNodes)
      ensures St() == old(St()).(ctl := old(Ctl()).(forNodes := old(forNodes)[..|old(forNodes)| - 1]))
    {
      x := forNodes[|forNodes| - 1];
      assert x in forNodes;
      ghost var o := forNodes;
      forNodes := forNodes[..|forNodes| - 1];
      assert forall y :: y in forNodes ==> y in o;
    }

    method PushWhile(x: NodeId)
      requires Valid() && x < |g.nodes|
      modifies this`whileNodes
      ensures Valid()
      ensures St() == old(St()).(ctl := old(Ctl()).(whileNodes := old(whileNodes) + [x]))
    {
      whileNodes := whileNodes + [x];
    }

    method PopWhile() returns (x: NodeId)
      requires Valid() && |whileNodes| > 0
      modifies this`whileNodes
      ensures Valid() && x < |g.nodes|
      ensures x == old(whileNodes)[|old(whileNodes)| - 1]
      ensures Stacks() == old(Stacks()).(whileNodes := whileNodes)
      ensures St() == old(St()).(ctl := old(Ctl()).(whileNodes := old(whileNodes)[..|old(whileNodes)| - 1]))
    {
      x := whileNodes[|whileNodes| - 1];
      assert x in whileNodes;
      ghost var o := whileNodes;
      whileNodes := whileNodes[..|whileNodes| - 1];
      assert forall y :: y in whileNodes ==> y in o;
    }

    method PushDo(x: NodeId)
      requires Valid() && x < |g.nodes|
      modifies this`doNodes
      ensures Valid()
      ensures St() == old(St()).(ctl := old(Ctl()).(doNodes := old(doNodes) + [x]))
    {
      doNodes := doNodes + [x];
    }

    method PopDo() returns (x: NodeId)
      requires Valid() && |doNodes| > 0
      modifies this`doNodes
      ensures Valid() && x < |g.nodes|
      ensures x == old(doNodes)[|old(doNodes)| - 1]
      ensures Stacks() == old(Stacks()).(doNodes := doNodes)
      ensures St() == old(St()).(ctl := old(Ctl()).(doNodes := old(doNodes)[..|old(doNodes)| - 1]))
    {
      x := doNodes[|doNodes| - 1];
      assert x in doNodes;
      ghost var o := doNodes;
      doNodes := doNodes[..|doNodes| - 1];
      assert forall y :: y in doNodes ==> y in o;
    }

    /**
     * enter_return: outside a suppressed region, a `return` node that holds
     * the tracked sets. The sets are not reset first, so the names of the
     * returned expression are added to the sets of the previous statement
     * too. The node is added without becoming the frontier, which add_node
     * leaves empty. Node creation is then suppressed until exit_return.
     */
    method EnterReturn(ctx: Node)
      requires Valid() && Unsolved(g.nodes) && ctx.kind.Return?
      requires doNotParse == 0 ==> ctx.line < |lineMap|
      modifies log, this`traversed, this`stmtVars, this`stmtFuncs, this`stmtConsts, this`varsSharers, this`funcsSharers, this`constsSharers, this`exitNodes, this`functions, this`doNotParse, g, reg
      ensures Stacks() == old(Stacks()).(doNotParse := old(doNotParse) + 1)
      ensures Valid() && Unsolved(g.nodes)
      ensures old(doNotParse) != 0 ==> St() == old(St()).(ctl := old(Ctl()).(doNotParse := old(doNotParse) + 1))
      ensures St() == ReturnEntered(old(St()), lineMap, ctx)
      ensures log.calls == old(log.calls) + [Enter("return", ctx.id)]
    {
      log.calls := log.calls + [Enter("return", ctx.id)];
      if doNotParse == 0 {
        ghost var s0 := St();
        var loc := GetLocation(ctx.line);
        var text := UnparseNode(ctx);
        ghost var s1 := St();
        var spec := NodeSpec(loc, "return", text, None, MaybeTainted, stmtVars, stmtFuncs, stmtConsts, false);
        var h := AddNew(spec);
        ghost var s2 := St();
        Hand(h, true, true, true);
        assert St() == s2.(trk := Handed(s1.trk, h, true, true, true));
      }
      Suppress(1);
    }

    /** exit_return. */
    method ExitReturn(ctx: Node)
      requires Valid()
      modifies log, this`doNotParse
      ensures Stacks() == old(Stacks()).(doNotParse := old(doNotParse) - 1)
      ensures Valid()
      ensures St() == Resumed(old(St()))
      ensures log.calls == old(log.calls) + [Exit("return", ctx.id)]
    {
      log.calls := log.calls + [Exit("return", ctx.id)];
      Suppress(-1);
    }

    /**
     * enter_function_declaration: outside a suppressed region, push the
     * declaration's function id together with the frontier before it.
     */
    method EnterFunctionDeclaration(ctx: Node)
      requires Valid() && ctx.kind.Function?
      modifies log, this`traversed, this`stmtVars, this`stmtFuncs, this`stmtConsts, this`inFunctions, g`nodes
      ensures Stacks() == old(Stacks()).(inFunctions := inFunctions)
      ensures old(doNotParse) != 0 ==> inFunctions == old(inFunctions)
      ensures GenerateFuncId(Unparse(ctx).text).Some?
      ensures old(doNotParse) == 0 ==> inFunctions == old(inFunctions) + [(GenerateFuncId(Unparse(ctx).text).value, old(exitNodes))]
      ensures Valid()
      ensures old(Unsolved(g.nodes)) ==> Unsolved(g.nodes)
      ensures old(doNotParse) != 0 ==> St() == old(St())
      ensures St() == DeclarationEntered(old(St()), ctx)
      ensures log.calls == old(log.calls) + [Enter("function_declaration", ctx.id)]
    {
      hide Unparsed, Shared, NamesOnly, MasksBelow, CallsNamed, Unsolved, Rendered;
      log.calls := log.calls + [Enter("function_declaration", ctx.id)];
      RenderedCallHasId(ctx);
      if doNotParse == 0 {
        var func := UnparseNode(ctx);
        var id := GenerateFuncId(func).value;
        inFunctions := inFunctions + [(id, exitNodes)];
      }
    }

    /** exit_function_declaration: pop the declaration and restore the frontier from before it. */
    method ExitFunctionDeclaration(ctx: Node)
      requires Valid() && |inFunctions| > 0
      modifies log, this`inFunctions, this`exitNodes
      ensures Stacks() == old(Stacks()).(inFunctions := inFunctions)
      ensures inFunctions == old(inFunctions)[..|old(inFunctions)| - 1]
      ensures Valid()
      ensures St() == DeclarationExited(old(St()))
      ensures log.calls == old(log.calls) + [Exit("function_declaration", ctx.id)]
    {
      log.calls := log.calls + [Exit("function_declaration", ctx.id)];
      var top := inFunctions[|inFunctions| - 1];
      assert top in inFunctions;
      inFunctions := inFunctions[..|inFunctions| - 1];
      exitNodes := top.1;
    }

    /**
     * enter_function_call: a call node. Its statement is the call's
     * rendering, its text is empty, and it holds the tracked sets.
     */
    method EnterFunctionCall(ctx: Node)
      requires Valid() && Unsolved(g.nodes) && ctx.kind.FunctionCall?
      requires doNotParse == 0 ==> ctx.line < |lineMap|
      modifies log, this`traversed, this`stmtVars, this`stmtFuncs, this`stmtConsts, this`varsSharers, this`funcsSharers, this`constsSharers, this`exitNodes, this`functions, g, reg
      ensures Stacks() == old(Stacks())
      ensures Valid() && Unsolved(g.nodes)
      ensures old(doNotParse) != 0 ==> St() == old(St())
      ensures St() == CallEntered(old(St()), lineMap, ctx)
      ensures log.calls == old(log.calls) + [Enter("function_call", ctx.id)]
    {
      log.calls := log.calls + [Enter("function_call", ctx.id)];
      if doNotParse != 0 {
        return;
      }
      var func, _ := Prepare(ctx, None);
      ghost var s1 := St();
      RenderedCallHasId(ctx);
      var spec := NodeSpec(GetLocation(ctx.line), func, "", None, MaybeTainted, stmtVars, stmtFuncs, stmtConsts, true);
      assert spec == NodeSpec(LocAt(lineMap, ctx.line), Unparse(ctx).text, "", None, MaybeTainted, s1.trk.vars, s1.trk.funcs, s1.trk.consts, true);
      var h := Emit(spec, true, true, true);
    }

    /**
     * enter_assignment: an `expression` node defining the target. Its
     * variables are the tracked ones less the target, in a set of its own;
     * it holds the tracked function and constant sets.
     */
    method EnterAssignment(ctx: Node)
      requires Valid() && Unsolved(g.nodes) && ctx.kind.Assignment?
      requires doNotParse == 0 ==> ctx.line < |lineMap|
      modifies log, this`traversed, this`stmtVars, this`stmtFuncs, this`stmtConsts, this`varsSharers, this`funcsSharers, this`constsSharers, this`exitNodes, this`functions, g, reg
      ensures Stacks() == old(Stacks())
      ensures Valid() && Unsolved(g.nodes)
      ensures old(doNotParse) != 0 ==> St() == old(St())
      ensures St() == Assigned(old(St()), lineMap, ctx, ctx.kind.target, ctx.kind.expr)
      ensures log.calls == old(log.calls) + [Enter("assignment", ctx.id)]
    {
      log.calls := log.calls + [Enter("assignment", ctx.id)];
      if doNotParse != 0 {
        return;
      }
      var expr, assign := Prepare(ctx, Some(ctx.kind.target));
      var h := Emit(NodeSpec(GetLocation(ctx.line), "expression", expr, assign, StaticTaint(ctx.kind.expr),
                             stmtVars - {assign.value}, stmtFuncs, stmtConsts, false), false, true, true);
    }

    /**
     * enter_assign_op: as enter_assignment, for `+=` and its kin. The
     * operator has no rendering of its own, so the statement text is the
     * fallback text and only the target's names are tracked.
     */
    method EnterAssignOp(ctx: Node)
      requires Valid() && Unsolved(g.nodes) && ctx.kind.AssignOp?
      requires doNotParse == 0 ==> ctx.line < |lineMap|
      modifies log, this`traversed, this`stmtVars, this`stmtFuncs, this`stmtConsts, this`varsSharers, this`funcsSharers, this`constsSharers, this`exitNodes, this`functions, g, reg
      ensures Stacks() == old(Stacks())
      ensures Valid() && Unsolved(g.nodes)
      ensures old(doNotParse) != 0 ==> St() == old(St())
      ensures St() == Assigned(old(St()), lineMap, ctx, ctx.kind.left, ctx.kind.right)
      ensures log.calls == old(log.calls) + [Enter("assign_op", ctx.id)]
    {
      log.calls := log.calls + [Enter("assign_op", ctx.id)];
      if doNotParse != 0 {
        return;
      }
      var expr, assign := Prepare(ctx, Some(ctx.kind.left));
      var h := Emit(NodeSpec(GetLocation(ctx.line), "expression", expr, assign, StaticTaint(ctx.kind.right),
                             stmtVars - {assign.value}, stmtFuncs, stmtConsts, false), false, true, true);
    }

    /**
     * enter_echo: an `echo` node whose functions include `echo`. It is not
     * tainted when every echoed expression is statically untainted. Node
     * creation is then suppressed until exit_echo.
     */
    method EnterEcho(ctx: Node)
      requires Valid() && Unsolved(g.nodes) && ctx.kind.Echo?
      requires doNotParse == 0 ==> ctx.line < |lineMap|
      modifies log, this`traversed, this`stmtVars, this`stmtFuncs, this`stmtConsts, this`varsSharers, this`funcsSharers, this`constsSharers, this`exitNodes, this`functions, this`doNotParse, g, reg
      ensures Stacks() == old(Stacks()).(doNotParse := old(doNotParse) + 1)
      ensures Valid() && Unsolved(g.nodes)
      ensures old(doNotParse) != 0 ==> St() == old(St()).(ctl := old(Ctl()).(doNotParse := old(doNotParse) + 1))
      ensures St() == EchoEntered(old(St()), lineMap, ctx)
      ensures log.calls == old(log.calls) + [Enter("echo", ctx.id)]
    {
      log.calls := log.calls + [Enter("echo", ctx.id)];
      if doNotParse == 0 {
        ResetTracking();
        ghost var s0 := St();
        TrackFunc("echo");
        assert St() == s0.(trk := s0.trk.(funcs := {"echo"}));
        var tainted := EchoTaint(ctx.kind.nodes);
        var text := Apply(UnparseList(ctx.kind.nodes, ""));
        ghost var s1 := St();
        assert s1 == Unparsed(s0.(trk := s0.trk.(funcs := {"echo"})), UnparseList(ctx.kind.nodes, ""));
        var h := Emit(NodeSpec(GetLocation(ctx.line), "echo", "echo " + text, None, tainted, stmtVars, stmtFuncs, stmtConsts, false), true, true, true);
      }
      Suppress(1);
    }

    /** exit_echo. */
    method ExitEcho(ctx: Node)
      requires Valid()
      modifies log, this`doNotParse
      ensures Stacks() == old(Stacks()).(doNotParse := old(doNotParse) - 1)
      ensures Valid()
      ensures St() == Resumed(old(St()))
      ensures log.calls == old(log.calls) + [Exit("echo", ctx.id)]
    {
      log.calls := log.calls + [Exit("echo", ctx.id)];
      Suppress(-1);
    }

    /**
     * enter_if: an `if` node. When the condition is a binary operation with
     * an assignment operand (the left one first) the node defines that
     * assignment's target. Its variables are the tracked ones less the
     * target, in a set of its own; it holds the tracked function set and
     * keeps an empty constant set of its own. The node is pushed as an if
     * without else.
     */
    method EnterIf(ctx: Node)
      requires Valid() && Unsolved(g.nodes) && ctx.kind.If?
      requires doNotParse == 0 ==> ctx.line < |lineMap|
      modifies log, this`traversed, this`stmtVars, this`stmtFuncs, this`stmtConsts, this`varsSharers, this`funcsSharers, this`constsSharers, this`exitNodes, this`functions, this`ifNodes, g, reg
      ensures Stacks() == old(Stacks()).(ifNodes := ifNodes)
      ensures old(doNotParse) != 0 ==> ifNodes == old(ifNodes)
      ensures Valid() && Unsolved(g.nodes)
      ensures old(doNotParse) == 0 ==> ifNodes == old(ifNodes) + [(|old(g.nodes)|, false)]
      ensures old(doNotParse) != 0 ==> St() == old(St())
      ensures St() == IfEntered(old(St()), lineMap, ctx)
      ensures log.calls == old(log.calls) + [Enter("if", ctx.id)]
    {
      log.calls := log.calls + [Enter("if", ctx.id)];
      if doNotParse != 0 {
        return;
      }
      var expr, assign := Prepare(ctx.kind.cond, IfAssign(ctx.kind.cond));
      ghost var s1 := St();
      var vars := if assign.Some? then stmtVars - {assign.value} else stmtVars;
      var spec := NodeSpec(GetLocation(ctx.line), "if", "if (" + expr + ")", assign, MaybeTainted, vars, stmtFuncs, {}, false);
      assert spec.loc == LocAt(lineMap, ctx.line) && spec.vars == (if assign.Some? then s1.trk.vars - {assign.value} else s1.trk.vars);
      assert spec.funcs == s1.trk.funcs;
      var h := Emit(spec, false, true, false);
      PushIf((h, false));
    }

    /**
     * exit_if: pop the if. The frontier becomes every node without a
     * successor that the if node reaches, in node order, followed by the if
     * node itself when the if had no else.
     */
    method ExitIf(ctx: Node)
      requires Valid() && (doNotParse == 0 ==> |ifNodes| > 0)
      modifies log, this`ifNodes, this`exitNodes
      ensures Stacks() == old(Stacks()).(ifNodes := ifNodes)
      ensures old(doNotParse) != 0 ==> ifNodes == old(ifNodes)
      ensures old(doNotParse) == 0 ==> ifNodes == old(ifNodes)[..|old(ifNodes)| - 1]
      ensures Valid()
      ensures old(doNotParse) != 0 ==> St() == old(St())
      ensures St() == IfExited(old(St()))
      ensures log.calls == old(log.calls) + [Exit("if", ctx.id)]
    {
      hide SinksOf;
      log.calls := log.calls + [Exit("if", ctx.id)];
      if doNotParse != 0 {
        return;
      }
      var top := PopIf();
      var reach := ReachableFrom(g.edges, |g.nodes|, top.0);
      SinksInOf(g.edges, reach, top.0, |g.nodes|);
      var frontier := SinksIn(g.edges, reach, |g.nodes|);
      if !top.1 {
        frontier := frontier + [top.0];
      }
      SetExitNodes(frontier);
    }

    /** enter_elseif: the branch starts from the if node again. */
    method EnterElseIf()
      requires Valid() && (doNotParse == 0 ==> |ifNodes| > 0)
      modifies this`exitNodes
      ensures Stacks() == old(Stacks())
      ensures Valid()
      ensures old(doNotParse) != 0 ==> St() == old(St())
      ensures old(doNotParse) == 0 ==> St() == Framed(old(St()), [old(ifNodes)[|old(ifNodes)| - 1].0])
    {
      if doNotParse != 0 {
        return;
      }
      var top := ifNodes[|ifNodes| - 1];
      assert top in ifNodes;
      SetExitNodes([top.0]);
    }

    /** enter_else: the branch starts from the if node again, and the if is marked as having an else. */
    method EnterElse(ctx: Node)
      requires Valid() && (doNotParse == 0 ==> |ifNodes| > 0)
      modifies log, this`exitNodes, this`ifNodes
      ensures Stacks() == old(Stacks()).(ifNodes := ifNodes)
      ensures old(doNotParse) != 0 ==> ifNodes == old(ifNodes)
      ensures old(doNotParse) == 0 ==> ifNodes == old(ifNodes)[..|old(ifNodes)| - 1] + [(old(ifNodes)[|old(ifNodes)| - 1].0, true)]
      ensures Valid()
      ensures old(doNotParse) != 0 ==> St() == old(St())
      ensures St() == ElseEntered(old(St()))
      ensures log.calls == old(log.calls) + [Enter("else", ctx.id)]
    {
      log.calls := log.calls + [Enter("else", ctx.id)];
      if doNotParse != 0 {
        return;
      }
      var top := PopIf();
      SetExitNodes([top.0]);
      PushIf((top.0, true));
    }

    /**
     * enter_while: a `while` node holding all three tracked sets. When the
     * condition is an assignment the node defines its target and takes the
     * target's static taint.
     */
    method EnterWhile(ctx: Node)
      requires Valid() && Unsolved(g.nodes) && ctx.kind.While?
      requires doNotParse == 0 ==> ctx.line < |lineMap|
      modifies log, this`traversed, this`stmtVars, this`stmtFuncs, this`stmtConsts, this`varsSharers, this`funcsSharers, this`constsSharers, this`exitNodes, this`functions, this`whileNodes, g, reg
      ensures Stacks() == old(Stacks()).(whileNodes := whileNodes)
      ensures old(doNotParse) != 0 ==> whileNodes == old(whileNodes)
      ensures Valid() && Unsolved(g.nodes)
      ensures old(doNotParse) == 0 ==> whileNodes == old(whileNodes) + [|old(g.nodes)|]
      ensures old(doNotParse) != 0 ==> St() == old(St())
      ensures St() == WhileEntered(old(St()), lineMap, ctx)
      ensures log.calls == old(log.calls) + [Enter("while", ctx.id)]
    {
      log.calls := log.calls + [Enter("while", ctx.id)];
      if doNotParse != 0 {
        return;
      }
      var expr, assign := Prepare(ctx.kind.cond, WhileAssign(ctx.kind.cond));
      ghost var s1 := St();
      var tainted := if ctx.kind.cond.kind.Assignment? then StaticTaint(ctx.kind.cond.kind.target) else MaybeTainted;
      var spec := NodeSpec(GetLocation(ctx.line), "while", "while (" + expr + ")", assign, tainted, stmtVars, stmtFuncs, stmtConsts, false);
      assert spec.loc == LocAt(lineMap, ctx.line) && spec.vars == s1.trk.vars && spec.funcs == s1.trk.funcs && spec.consts == s1.trk.consts;
      var h := Emit(spec, true, true, true);
      PushWhile(h);
    }

    /** The tail exit_while, exit_for and exit_foreach share. */
    method CloseLoop(header: NodeId, readd: bool)
      requires Valid() && Unsolved(g.nodes) && header < |g.nodes|
      modifies this`exitNodes, this`functions, g, reg
      ensures Stacks() == old(Stacks())
      ensures Valid() && Unsolved(g.nodes)
      ensures St() == ClosedLoop(old(St()), header, readd)
    {
      if |exitNodes| > 1 {
        var e := AddNew(Bare(EmptyLoc, "empty", ""));
        SetExitNodes([e]);
      }
      if |exitNodes| > 0 {
        assert exitNodes[0] in exitNodes;
        AddEdge(exitNodes[0], header);
      }
      if readd {
        AddExitNode(header);
      }
    }

    /** exit_while: pop the header and close the loop, leaving the header on the frontier. */
    method ExitWhile(ctx: Node)
      requires Valid() && Unsolved(g.nodes) && (doNotParse == 0 ==> |whileNodes| > 0)
      modifies log, this`exitNodes, this`functions, this`whileNodes, g, reg
      ensures Stacks() == old(Stacks()).(whileNodes := whileNodes)
      ensures old(doNotParse) != 0 ==> whileNodes == old(whileNodes)
      ensures old(doNotParse) == 0 ==> whileNodes == old(whileNodes)[..|old(whileNodes)| - 1]
      ensures Valid() && Unsolved(g.nodes)
      ensures old(doNotParse) != 0 ==> St() == old(St())
      ensures St() == WhileExited(old(St()))
      ensures log.calls == old(log.calls) + [Exit("while", ctx.id)]
    {
      log.calls := log.calls + [Exit("while", ctx.id)];
      if doNotParse != 0 {
        return;
      }
      var w := PopWhile();
      CloseLoop(w, true);
    }

    /** enter_do_while: a `do` node with empty text, pushed as the loop's head. */
    method EnterDoWhile(ctx: Node)
      requires Valid() && Unsolved(g.nodes) && ctx.kind.DoWhile?
      requires doNotParse == 0 ==> ctx.line < |lineMap|
      modifies log, this`exitNodes, this`functions, this`doNodes, g, reg
      ensures Stacks() == old(Stacks()).(doNodes := doNodes)
      ensures old(doNotParse) != 0 ==> doNodes == old(doNodes)
      ensures old(doNotParse) == 0 ==> doNodes == old(doNodes) + [|old(g.nodes)|]
      ensures Valid() && Unsolved(g.nodes)
      ensures old(doNotParse) != 0 ==> St() == old(St())
      ensures St() == DoEntered(old(St()), lineMap, ctx)
      ensures log.calls == old(log.calls) + [Enter("do_while", ctx.id)]
    {
      log.calls := log.calls + [Enter("do_while", ctx.id)];
      if doNotParse != 0 {
        return;
      }
      var h := AddNew(Bare(GetLocation(ctx.line), "do", ""));
      SetExitNodes([h]);
      PushDo(h);
    }

    /**
     * exit_do_while: a `while` node for the condition, holding all three
     * tracked sets, becomes the frontier and gets the back edge to the
     * popped `do` node.
     */
    method ExitDoWhile(ctx: Node)
      requires Valid() && Unsolved(g.nodes) && ctx.kind.DoWhile?
      requires doNotParse == 0 ==> ctx.line < |lineMap| && |doNodes| > 0
      modifies log, this`traversed, this`stmtVars, this`stmtFuncs, this`stmtConsts, this`varsSharers, this`funcsSharers, this`constsSharers, this`exitNodes, this`functions, this`doNodes, g, reg
      ensures Stacks() == old(Stacks()).(doNodes := doNodes)
      ensures old(doNotParse) != 0 ==> doNodes == old(doNodes)
      ensures Valid() && Unsolved(g.nodes)
      ensures old(doNotParse) == 0 ==> doNodes == old(doNodes)[..|old(doNodes)| - 1]
      ensures old(doNotParse) != 0 ==> St() == old(St())
      ensures St() == DoExited(old(St()), lineMap, ctx)
      ensures log.calls == old(log.calls) + [Exit("do_while", ctx.id)]
    {
      log.calls := log.calls + [Exit("do_while", ctx.id)];
      if doNotParse != 0 {
        return;
      }
      var expr, _ := Prepare(ctx.kind.cond, None);
      ghost var s0 := St();
      var d := PopDo();
      ghost var s1 := St();
      assert s1 == s0.(ctl := s0.ctl.(doNodes := s0.ctl.doNodes[..|s0.ctl.doNodes| - 1]));
      var h := Emit(NodeSpec(GetLocation(ctx.line), "while", "while (" + expr + ")", None, MaybeTainted, stmtVars, stmtFuncs, stmtConsts, false),
                    true, true, true);
      AddEdge(h, d);
    }

    /** enter_for: a `for` node with text `for`, pushed as the loop's header. */
    method EnterFor(ctx: Node)
      requires Valid() && Unsolved(g.nodes) && ctx.kind.For?
      requires doNotParse == 0 ==> ctx.line < |lineMap|
      modifies log, this`exitNodes, this`functions, this`forNodes, g, reg
      ensures Stacks() == old(Stacks()).(forNodes := forNodes)
      ensures old(doNotParse) != 0 ==> forNodes == old(forNodes)
      ensures old(doNotParse) == 0 ==> forNodes == old(forNodes) + [|old(g.nodes)|]
      ensures Valid() && Unsolved(g.nodes)
      ensures old(doNotParse) != 0 ==> St() == old(St())
      ensures St() == ForEntered(old(St()), lineMap, ctx, "for", "for")
      ensures log.calls == old(log.calls) + [Enter("for", ctx.id)]
    {
      log.calls := log.calls + [Enter("for", ctx.id)];
      if doNotParse != 0 {
        return;
      }
      var h := AddNew(Bare(GetLocation(ctx.line), "for", "for"));
      SetExitNodes([h]);
      PushFor(h);
    }

    /** exit_for: pop the header and close the loop. The header does not go back on the frontier. */
    method ExitFor(ctx: Node)
      requires Valid() && Unsolved(g.nodes) && (doNotParse == 0 ==> |forNodes| > 0)
      modifies log, this`exitNodes, this`functions, this`forNodes, g, reg
      ensures Stacks() == old(Stacks()).(forNodes := forNodes)
      ensures old(doNotParse) != 0 ==> forNodes == old(forNodes)
      ensures old(doNotParse) == 0 ==> forNodes == old(forNodes)[..|old(forNodes)| - 1]
      ensures Valid() && Unsolved(g.nodes)
      ensures old(doNotParse) != 0 ==> St() == old(St())
      ensures St() == ForExited(old(St()))
      ensures log.calls == old(log.calls) + [Exit("for", ctx.id)]
    {
      log.calls := log.calls + [Exit("for", ctx.id)];
      if doNotParse != 0 {
        return;
      }
      var f := PopFor();
      CloseLoop(f, false);
    }

    /** enter_foreach: a `foreach` node with empty text, pushed on the for stack. */
    method EnterForeach(ctx: Node)
      requires Valid() && Unsolved(g.nodes) && ctx.kind.Foreach?
      requires doNotParse == 0 ==> ctx.line < |lineMap|
      modifies log, this`exitNodes, this`functions, this`forNodes, g, reg
      ensures Stacks() == old(Stacks()).(forNodes := forNodes)
      ensures old(doNotParse) != 0 ==> forNodes == old(forNodes)
      ensures old(doNotParse) == 0 ==> forNodes == old(forNodes) + [|old(g.nodes)|]
      ensures Valid() && Unsolved(g.nodes)
      ensures old(doNotParse) != 0 ==> St() == old(St())
      ensures St() == ForEntered(old(St()), lineMap, ctx, "foreach", "")
      ensures log.calls == old(log.calls) + [Enter("foreach", ctx.id)]
    {
      log.calls := log.calls + [Enter("foreach", ctx.id)];
      if doNotParse != 0 {
        return;
      }
      var h := AddNew(Bare(GetLocation(ctx.line), "foreach", ""));
      SetExitNodes([h]);
      PushFor(h);
    }

    /** exit_foreach: the same code as exit_for, under its own hook. */
    method ExitForeach(ctx: Node)
      requires Valid() && Unsolved(g.nodes) && (doNotParse == 0 ==> |forNodes| > 0)
      modifies log, this`exitNodes, this`functions, this`forNodes, g, reg
      ensures Stacks() == old(Stacks()).(forNodes := forNodes)
      ensures old(doNotParse) != 0 ==> forNodes == old(forNodes)
      ensures old(doNotParse) == 0 ==> forNodes == old(forNodes)[..|old(forNodes)| - 1]
      ensures Valid() && Unsolved(g.nodes)
      ensures old(doNotParse) != 0 ==> St() == old(St())
      ensures St() == ForExited(old(St()))
      ensures log.calls == old(log.calls) + [Exit("foreach", ctx.id)]
    {
      log.calls := log.calls + [Exit("foreach", ctx.id)];
      if doNotParse != 0 {
        return;
      }
      var f := PopFor();
      CloseLoop(f, false);
    }

    /**
     * get_graph: join a frontier of more than one node into an `empty` sink,
     * add the call edges (from each call to the entry of the function its
     * statement names, and from that function's last node back to the
     * call), then solve reaching definitions.
     */
    method GetGraph()
      requires Valid() && Unsolved(g.nodes)
      modifies this`exitNodes, this`functions, g, reg
      ensures Valid()
      ensures var s1 := if |old(exitNodes)| > 1 then Added(old(St()), Bare(EmptyLoc, "empty", "")) else old(St());
        OnlySets(s1.nodes, g.nodes) && g.edges == s1.edges + CallEdgesBelow(s1.nodes, s1.ctl.functions, |s1.nodes|) &&
        Ctl() == s1.ctl && Trk() == s1.trk && Regs() == s1.reg
      ensures Solved(g.nodes, g.edges)
    {
      if |exitNodes| > 1 {
        var e := AddNew(Bare(EmptyLoc, "empty", ""));
      }
      LinkCalls();
      Solve();
    }

    /** The call-edge pass of get_graph. */
    method LinkCalls()
      requires Valid() && Unsolved(g.nodes)
      modifies g`edges
      ensures Valid()
      ensures g.edges == old(g.edges) + CallEdgesBelow(g.nodes, functions, |g.nodes|)
    {
      var i := 0;
      while i < |g.nodes|
        invariant 0 <= i <= |g.nodes|
        invariant g.edges == old(g.edges) + CallEdgesBelow(g.nodes, functions, i)
        invariant Valid()
      {
        LinkCall(i);
        CallEdgesStep(g.nodes, functions, i);
        i := i + 1;
      }
    }

    /** One step of the call-edge pass: link node `i` if it calls a function in the table. */
    method LinkCall(i: NodeId)
      requires Valid() && i < |g.nodes|
      modifies g`edges
      ensures Valid()
      ensures g.edges == old(g.edges) + CallEdgesAt(g.nodes, functions, i)
    {
      var cn := g.nodes[i];
      if cn.isCall {
        var id := GenerateFuncId(cn.stmt);
        if id.Some? && id.value in functions {
          var ends := functions[id.value];
          AddEdge(i, ends.0);
          AddEdge(ends.1, i);
        }
      }
    }

    /** The reaching-definitions iteration of get_graph. */
    method Solve()
      requires Valid() && Unsolved(g.nodes)
      modifies g`nodes
      ensures Valid()
      ensures OnlySets(old(g.nodes), g.nodes) && Solved(g.nodes, g.edges)
      ensures St() == old(St()).(nodes := g.nodes)
    {
      assert BelowTransfer(g.nodes, g.edges);
      ghost var s2 := St();
      g.ReachingDefinitions(reg.nextBit);
      assert forall k :: 0 <= k < |g.nodes| ==>
        g.nodes[k].vars == s2.nodes[k].vars && g.nodes[k].funcs == s2.nodes[k].funcs && g.nodes[k].consts == s2.nodes[k].consts &&
        g.nodes[k].isCall == s2.nodes[k].isCall && g.nodes[k].stmt == s2.nodes[k].stmt;
    }
  }

  lemma {:induction false} CallEdgesStep(nodes: seq<CodeNode>, fs: map<string, (NodeId, NodeId)>, i: nat)
    requires i < |nodes|
    ensures CallEdgesBelow(nodes, fs, i + 1) ==
      CallEdgesBelow(nodes, fs, i) + CallEdgesAt(nodes, fs, i)
  {
  }

  lemma {:induction false} CounterOnly(c: Control, k: int, n: nat)
    requires HandlesBelow(c, n)
    ensures HandlesBelow(c.(doNotParse := k), n)
  {
  }

  /** `b` differs from `a` only in the tracked names. */
  ghost predicate NamesOnly(a: seq<CodeNode>, b: seq<CodeNode>) {
    |a| == |b| && forall k :: 0 <= k < |a| ==> b[k] == a[k].(vars := b[k].vars, funcs := b[k].funcs, consts := b[k].consts)
  }

  /** Updating the holders of the tracked sets changes names only, after which every holder agrees with its set. */
  lemma {:induction false} SharedKeeps(nodes: seq<CodeNode>, t: Tracking, bound: nat)
    requires forall k :: k in t.varsSharers + t.funcsSharers + t.constsSharers ==> k < |nodes|
    ensures NamesOnly(nodes, Shared(nodes, t)) && SharersHold(Shared(nodes, t), t)
    ensures |Shared(nodes, t)| == |nodes|
    ensures MasksBelow(nodes, bound) ==> MasksBelow(Shared(nodes, t), bound)
    ensures Unsolved(nodes) ==> Unsolved(Shared(nodes, t))
    ensures CallsNamed(nodes) ==> CallsNamed(Shared(nodes, t))
  {
    var r := Shared(nodes, t);
    assert |r| == |nodes|;
    forall k | 0 <= k < |nodes|
      ensures r[k] == nodes[k].(vars := r[k].vars, funcs := r[k].funcs, consts := r[k].consts)
    {
    }
    forall k | k in t.varsSharers ensures k < |r| && r[k].vars == t.vars {
      assert k in t.varsSharers + t.funcsSharers + t.constsSharers;
    }
    forall k | k in t.funcsSharers ensures k < |r| && r[k].funcs == t.funcs {
      assert k in t.varsSharers + t.funcsSharers + t.constsSharers;
    }
    forall k | k in t.constsSharers ensures k < |r| && r[k].consts == t.consts {
      assert k in t.varsSharers + t.funcsSharers + t.constsSharers;
    }
  }

  /** With a valid registry every node's kill mask stays below `next_bit`. */
  lemma {:induction false} TargetBitsBelowAll(dict: map<string, seq<Def>>, n: nat, assign: Option<string>)
    requires AllBelow(dict, n)
    ensures assign.Some? ==> TargetBits(dict, assign.value) <= Below(n)
  {
    if assign.Some? {
      TargetBitsBelow(dict, n, assign.value);
    }
  }

  /** Appending a fresh node whose masks lie below the new bound keeps the node-wise invariants. */
  lemma AppendKeeps(nodes: seq<CodeNode>, cn: CodeNode, t: Tracking, b0: nat, b1: nat)
    requires SharersHold(nodes, t) && CallsNamed(nodes) && Unsolved(nodes) && MasksBelow(nodes, b0) && b0 <= b1
    requires cn.isCall ==> GenerateFuncId(cn.stmt).Some?
    requires cn.inset == {} && cn.outset == cn.gen && cn.gen <= Below(b1) && cn.kill <= Below(b1)
    ensures SharersHold(nodes + [cn], t) && CallsNamed(nodes + [cn]) && Unsolved(nodes + [cn]) && MasksBelow(nodes + [cn], b1)
  {
    assert Below(b0) <= Below(b1);
  }
}
