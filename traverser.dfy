/**
 * The tree walker (phptraverser/php_traverser.py) and the build glue of
 * cfg.py. `traverse_node` skips a node the listener has already rendered;
 * otherwise it calls `enter_<kind>`, walks the node's children in a fixed
 * order and calls `exit_<kind>`. Kinds it does not dispatch on give no
 * callbacks and are not descended into.
 *
 * Each walk returns, as ghost state, the callbacks it made, and appends
 * them to the listener's own log of callbacks. `Walk` is the grammar those
 * sequences follow: a callback pair around the children's own sequences,
 * or nothing when the node was skipped. `Walked` is the listener state the
 * walk leaves: the handlers' state functions composed in callback order.
 */
module PhpTraverser {
  import opened Wrappers
  import opened PhpAst
  import opened CodeNodes
  import opened Dataflow
  import opened DefinitionRegistry
  import opened PhpListener

  /** The kinds `traverse_node` dispatches on. */
  predicate Hooked(k: Kind) {
    k.Assignment? || k.AssignOp? || k.BinaryOp? || k.Block? || k.DoWhile? || k.Echo? || k.For? || k.Foreach? ||
    k.Function? || k.FunctionCall? || k.If? || k.MethodCall? || k.Return? || k.Variable? || k.While?
  }

  /** The `<hook>` part of the callback names for a dispatched kind. */
  function HookName(k: Kind): string {
    match k
    case Assignment(_, _) => "assignment"
    case AssignOp(_, _, _, _) => "assign_op"
    case BinaryOp(_, _, _) => "binary_op"
    case Block(_) => "block"
    case DoWhile(_, _, _) => "do_while"
    case Echo(_) => "echo"
    case For(_, _) => "for"
    case Foreach(_, _, _, _) => "foreach"
    case Function(_, _, _) => "function_declaration"
    case FunctionCall(_, _) => "function_call"
    case If(_, _, _, _) => "if"
    case MethodCall(_, _, _) => "method_call"
    case Return(_) => "return"
    case Variable(_) => "variable"
    case While(_, _) => "while"
    case _ => ""
  }

  /** `ev` is what walking `n` produces: nothing when `n` was skipped, or its visit. */
  ghost predicate Walk(n: Node, ev: seq<Event>)
    decreases n, 1
  {
    ev == [] || Visit(n, ev)
  }

  /** `ev` is a visit of `n`: its enter callback, the walks of its children in order, its exit callback. */
  ghost predicate Visit(n: Node, ev: seq<Event>)
    decreases n, 0
  {
    var enter := Enter(HookName(n.kind), n.id);
    var exit := Exit(HookName(n.kind), n.id);
    match n.kind
    case Assignment(t, e) => exists a, b :: ev == [enter] + a + b + [exit] && Walk(t, a) && Walk(e, b)
    case AssignOp(_, _, _, _) => ev == [enter, exit]
    case BinaryOp(_, x, y) => exists a, b :: ev == [enter] + a + b + [exit] && Walk(x, a) && Walk(y, b)
    case Block(ns) => exists a :: ev == [enter] + a + [exit] && WalkAll(ns, a)
    case DoWhile(body, c, _) => exists a, b :: ev == [enter] + a + b + [exit] && Walk(body, a) && Walk(c, b)
    case Echo(ns) => exists a :: ev == [enter] + a + [exit] && WalkAll(ns, a)
    case For(body, _) => exists a :: ev == [enter] + a + [exit] && Walk(body, a)
    case Foreach(e, _, _, body) => exists a, b :: ev == [enter] + a + b + [exit] && Walk(e, a) && Walk(body, b)
    case Function(_, _, ss) => exists a :: ev == [enter] + a + [exit] && WalkAll(ss, a)
    // a call's arguments sit in Parameter wrappers, a kind that is not dispatched on
    case FunctionCall(_, _) => ev == [enter, exit]
    case If(c, body, eis, els) =>
      exists a, b, x, y :: ev == [enter] + a + b + x + y + [exit] &&
        Walk(c, a) && Walk(body, b) && WalkElseIfs(n.id, eis, x) && WalkElse(n.id, els, y)
    case MethodCall(_, _, _) => ev == [enter, exit]
    case Return(v) => exists a :: ev == [enter] + a + [exit] && WalkOpt(v, a)
    case Variable(_) => ev == [enter, exit]
    case While(c, body) => exists a, b :: ev == [enter] + a + b + [exit] && Walk(c, a) && Walk(body, b)
    case _ => false
  }

  /** The walks of `ns`, one after the other. */
  ghost predicate WalkAll(ns: seq<Node>, ev: seq<Event>)
    decreases ns, 2
  {
    if |ns| == 0 then ev == []
    else exists a, b :: ev == a + b && WalkAll(ns[..|ns| - 1], a) && Walk(ns[|ns| - 1], b)
  }

  /** `traverse_node(None)` does nothing. */
  ghost predicate WalkOpt(v: Option<Node>, ev: seq<Event>)
    decreases v, 2
  {
    if v.Some? then Walk(v.value, ev) else ev == []
  }

  /** Each elseif body between a further `enter_if` and `exit_if` given the outer If node, whose id is `id`. */
  ghost predicate WalkElseIfs(id: nat, eis: seq<ElseIf>, ev: seq<Event>)
    decreases eis, 2
  {
    if |eis| == 0 then ev == []
    else
      exists a, z :: ev == a + z && WalkElseIfs(id, eis[..|eis| - 1], a) && WalkElseIf(id, eis[|eis| - 1], z)
  }

  /** One elseif body between a further `enter_if` and `exit_if` on the outer If node. */
  ghost predicate WalkElseIf(id: nat, ei: ElseIf, ev: seq<Event>)
    decreases ei, 2
  {
    exists z :: ev == [Enter("if", id)] + z + [Exit("if", id)] && Walk(ei.body, z)
  }

  /** The else body between `enter_else` and `exit_else`, when there is one. */
  ghost predicate WalkElse(id: nat, els: Option<Node>, ev: seq<Event>)
    decreases els, 2
  {
    if els.None? then ev == []
    else exists z :: ev == [Enter("else", id)] + z + [Exit("else", id)] && Walk(els.value, z)
  }


  /**
   * The listener state after walking `n` from state `s`, with line map `m`:
   * `s` itself when the listener has already rendered `n`, its visit
   * otherwise.
   */
  ghost function Walked(s: Snapshot, m: seq<Loc>, n: Node): Snapshot
    decreases n, 1
  {
    if n.id in s.trk.traversed then s else Visited(s, m, n)
  }

  /**
   * The state after visiting `n`: the enter handler's state function, the
   * children's walks in order, the exit handler's. A callback the listener
   * inherits as a no-op leaves the state as it is.
   */
  ghost function Visited(s: Snapshot, m: seq<Loc>, n: Node): Snapshot
    decreases n, 0
  {
    match n.kind
    case Assignment(t, e) => Walked(Walked(Assigned(s, m, n, t, e), m, t), m, e)
    case AssignOp(_, x, y, _) => Assigned(s, m, n, x, y)
    case BinaryOp(_, x, y) => Walked(Walked(s, m, x), m, y)
    case Block(ns) => WalkedAll(s, m, ns)
    case DoWhile(body, c, _) => DoExited(Walked(Walked(DoEntered(s, m, n), m, body), m, c), m, n)
    case Echo(ns) => Resumed(WalkedAll(EchoEntered(s, m, n), m, ns))
    case For(body, _) => ForExited(Walked(ForEntered(s, m, n, "for", "for"), m, body))
    case Foreach(e, _, _, body) => ForExited(Walked(Walked(ForEntered(s, m, n, "foreach", ""), m, e), m, body))
    case Function(_, _, ss) => DeclarationExited(WalkedAll(DeclarationEntered(s, n), m, ss))
    case FunctionCall(_, _) => CallEntered(s, m, n)
    case If(c, body, eis, els) =>
      IfExited(WalkedElse(WalkedElseIfs(Walked(Walked(IfEntered(s, m, n), m, c), m, body), m, n, eis), m, n, els))
    case Return(v) => Resumed(WalkedOpt(ReturnEntered(s, m, n), m, v))
    case While(c, body) => WhileExited(Walked(Walked(WhileEntered(s, m, n), m, c), m, body))
    case _ => s
  }

  /** The walks of `ns`, one after the other. */
  ghost function WalkedAll(s: Snapshot, m: seq<Loc>, ns: seq<Node>): Snapshot
    decreases ns, 2
  {
    if |ns| == 0 then s else Walked(WalkedAll(s, m, ns[..|ns| - 1]), m, ns[|ns| - 1])
  }

  ghost function WalkedOpt(s: Snapshot, m: seq<Loc>, v: Option<Node>): Snapshot
    decreases v, 2
  {
    if v.Some? then Walked(s, m, v.value) else s
  }

  /** The elseifs of the If node `n`, one after the other. */
  ghost function WalkedElseIfs(s: Snapshot, m: seq<Loc>, n: Node, eis: seq<ElseIf>): Snapshot
    decreases eis, 2
  {
    if |eis| == 0 then s else WalkedElseIf(WalkedElseIfs(s, m, n, eis[..|eis| - 1]), m, n, eis[|eis| - 1])
  }

  /** One elseif: `enter_if` on the outer node `n`, the body, `exit_if`. */
  ghost function WalkedElseIf(s: Snapshot, m: seq<Loc>, n: Node, ei: ElseIf): Snapshot
    decreases ei, 2
  {
    IfExited(Walked(IfEntered(s, m, n), m, ei.body))
  }

  /** `enter_else` and the else body; `exit_else` is a no-op. */
  ghost function WalkedElse(s: Snapshot, m: seq<Loc>, n: Node, els: Option<Node>): Snapshot
    decreases els, 2
  {
    if els.None? then s else Walked(ElseEntered(s), m, els.value)
  }

  /** What `traverse_node` tests, in terms of the state. */
  lemma TraversedIn(l: Listener, id: nat)
    ensures l.IsTraversed(id) <==> id in l.St().trk.traversed
  {
  }

  /** A variable's visit is its two callbacks, which are no-ops of the listener. */
  lemma VariableVisit(s: Snapshot, m: seq<Loc>, n: Node)
    requires n.kind.Variable?
    ensures Visit(n, [Enter("variable", n.id), Exit("variable", n.id)])
    ensures Visited(s, m, n) == s
  {
  }

  /** A kind that is not dispatched on changes nothing. */
  lemma UnhookedVisit(s: Snapshot, m: seq<Loc>, n: Node)
    requires !Hooked(n.kind)
    ensures Visited(s, m, n) == s
  {
  }

  /** A return is entered, its value walked if it has one, and exited. */
  lemma ReturnVisit(s: Snapshot, m: seq<Loc>, n: Node, a: seq<Event>)
    requires n.kind.Return? && WalkOpt(n.kind.result, a)
    ensures Visit(n, [Enter("return", n.id)] + a + [Exit("return", n.id)])
    ensures Visited(s, m, n) == Resumed(WalkedOpt(ReturnEntered(s, m, n), m, n.kind.result))
  {
  }

  /** Callbacks appended group by group: the log grows by the groups joined. */
  lemma Regroup3<T>(c: seq<T>, e: seq<T>, a: seq<T>, x: seq<T>)
    ensures c + e + a + x == c + (e + a + x)
  {
  }

  lemma Regroup4<T>(c: seq<T>, e: seq<T>, a: seq<T>, b: seq<T>, x: seq<T>)
    ensures c + e + a + b + x == c + (e + a + b + x)
  {
  }

  lemma Regroup6<T>(c: seq<T>, e: seq<T>, a: seq<T>, b: seq<T>, x: seq<T>, y: seq<T>, z: seq<T>)
    ensures c + e + a + b + x + y + z == c + (e + a + b + x + y + z)
  {
  }

  /**
   * What the walk of `n` asks of the tree: every node it can hand a handler
   * has a line in the line map, and no function is declared where node
   * creation is suppressed (`quiet`), that is inside a return or an echo.
   * Both hold of any tree phply parses from the preprocessed text.
   */
  ghost predicate Fits(n: Node, m: nat, quiet: bool)
    decreases n, 1
  {
    n.line < m &&
    match n.kind
    case Assignment(t, e) => Fits(t, m, quiet) && Fits(e, m, quiet)
    case BinaryOp(_, x, y) => Fits(x, m, quiet) && Fits(y, m, quiet)
    case Block(ns) => FitsAll(ns, m, quiet)
    case DoWhile(body, c, _) => Fits(body, m, quiet) && Fits(c, m, quiet)
    case Echo(ns) => FitsAll(ns, m, true)
    case For(body, _) => Fits(body, m, quiet)
    case Foreach(e, _, _, body) => Fits(e, m, quiet) && Fits(body, m, quiet)
    case Function(_, _, ss) => !quiet && FitsAll(ss, m, quiet)
    case If(c, body, eis, els) =>
      Fits(c, m, quiet) && Fits(body, m, quiet) &&
      (forall k :: 0 <= k < |eis| ==> Fits(eis[k].body, m, quiet)) &&
      (els.Some? ==> Fits(els.value, m, quiet))
    case Return(v) => v.Some? ==> Fits(v.value, m, true)
    case While(c, body) => Fits(c, m, quiet) && Fits(body, m, quiet)
    case _ => true
  }

  ghost predicate FitsAll(ns: seq<Node>, m: nat, quiet: bool)
    decreases ns, 2
  {
    forall k :: 0 <= k < |ns| ==> Fits(ns[k], m, quiet)
  }

  /** The listener can walk `n`. */
  ghost predicate Ready(l: Listener, n: Node)
    reads l, l.g, l.reg
  {
    l.Valid() && Unsolved(l.g.nodes) && l.doNotParse >= 0 && Fits(n, |l.lineMap|, l.doNotParse != 0)
  }

  /**
   * traverse_node. A node the listener has already rendered gives no
   * callbacks and changes nothing. Otherwise the walk is a visit for a
   * dispatched kind and nothing for any other. A walk leaves the stacks
   * and the counter as it found them, and inside a suppressed region it
   * changes nothing at all.
   */
  method TraverseNode(n: Node, l: Listener) returns (ghost ev: seq<Event>)
    requires Ready(l, n)
    modifies l, l.g, l.reg, l.log
    ensures l.Valid() && Unsolved(l.g.nodes)
    ensures l.Stacks() == old(l.Stacks())
    ensures old(l.doNotParse) != 0 ==> l.St() == old(l.St())
    ensures old(l.IsTraversed(n.id)) ==> ev == [] && l.St() == old(l.St())
    ensures !old(l.IsTraversed(n.id)) ==> (Hooked(n.kind) <==> ev != [])
    ensures Walk(n, ev)
    ensures l.log.calls == old(l.log.calls) + ev
    ensures l.St() == Walked(old(l.St()), l.lineMap, n)
    decreases n, 2
  {
    hide Unparse, Added, Prepared, Framed, SinksOf, Handed, Unparsed, Built, Linked, Enrolled, Shared, Listener.Valid, Listener.St,
      ReturnEntered, DeclarationEntered, DeclarationExited, CallEntered, Assigned, EchoEntered, IfEntered, IfExited, ElseEntered, WhileEntered, WhileExited, DoEntered, DoExited, ForEntered, ForExited,
      WalkedAll, WalkedOpt, WalkedElseIfs, WalkedElseIf, WalkedElse, WalkAll, WalkOpt, WalkElseIfs, WalkElseIf, WalkElse, Visit, Visited;
    TraversedIn(l, n.id);
    if l.IsTraversed(n.id) {
      return [];
    }
    match n.kind
    case Assignment(_, _) => ev := TraverseAssignment(n, l);
    case AssignOp(_, _, _, _) => ev := TraverseAssignOp(n, l);
    case BinaryOp(_, _, _) => ev := TraverseBinaryOp(n, l);
    case Block(_) => ev := TraverseBlock(n, l);
    case DoWhile(_, _, _) => ev := TraverseDoWhile(n, l);
    case Echo(_) => ev := TraverseEcho(n, l);
    case For(_, _) => ev := TraverseFor(n, l);
    case Foreach(_, _, _, _) => ev := TraverseForeach(n, l);
    case Function(_, _, _) => ev := TraverseFunction(n, l);
    case FunctionCall(_, _) => ev := TraverseFunctionCall(n, l);
    case If(_, _, _, _) => ev := TraverseIf(n, l);
    case MethodCall(_, _, _) => ev := TraverseMethodCall(n, l);
    case Return(_) => ev := TraverseReturn(n, l);
    case Variable(_) =>
      VariableVisit(old(l.St()), l.lineMap, n);
      l.Hook(Enter("variable", n.id));
      l.Hook(Exit("variable", n.id));
      ev := [Enter("variable", n.id), Exit("variable", n.id)];
    case While(_, _) => ev := TraverseWhile(n, l);
    case _ =>
      UnhookedVisit(old(l.St()), l.lineMap, n);
      ev := [];
  }

  /** traverse, and the loops of traverse_node over a child list: each node in list order. */
  method TraverseList(ns: seq<Node>, l: Listener) returns (ghost ev: seq<Event>)
    requires l.Valid() && Unsolved(l.g.nodes) && l.doNotParse >= 0 && FitsAll(ns, |l.lineMap|, l.doNotParse != 0)
    modifies l, l.g, l.reg, l.log
    ensures l.Valid() && Unsolved(l.g.nodes)
    ensures l.Stacks() == old(l.Stacks())
    ensures old(l.doNotParse) != 0 ==> l.St() == old(l.St())
    ensures WalkAll(ns, ev)
    ensures l.log.calls == old(l.log.calls) + ev
    ensures l.St() == WalkedAll(old(l.St()), l.lineMap, ns)
    decreases ns, 3
  {
    hide Unparse, Added, Prepared, Framed, SinksOf, Handed, Unparsed, Built, Linked, Enrolled, Shared, Listener.Valid, Listener.St,
      ReturnEntered, DeclarationEntered, DeclarationExited, CallEntered, Assigned, EchoEntered, IfEntered, IfExited, ElseEntered, WhileEntered, WhileExited, DoEntered, DoExited, ForEntered, ForExited,
      Walked, WalkedOpt, WalkedElseIfs, WalkedElseIf, WalkedElse, Walk, WalkOpt, WalkElseIfs, WalkElseIf, WalkElse;
    ev := [];
    var i := 0;
    while i < |ns|
      invariant 0 <= i <= |ns|
      invariant l.Valid() && Unsolved(l.g.nodes)
      invariant l.Stacks() == old(l.Stacks())
      invariant old(l.doNotParse) != 0 ==> l.St() == old(l.St())
      invariant WalkAll(ns[..i], ev)
      invariant l.log.calls == old(l.log.calls) + ev
      invariant l.St() == WalkedAll(old(l.St()), l.lineMap, ns[..i])
    {
      var x := TraverseNode(ns[i], l);
      assert ns[..i + 1][..i] == ns[..i] && ns[..i + 1][i] == ns[i];
      ev := ev + x;
      i := i + 1;
    }
    assert ns[..|ns|] == ns;
  }

  method TraverseAssignment(n: Node, l: Listener) returns (ghost ev: seq<Event>)
    requires Ready(l, n) && n.kind.Assignment?
    modifies l, l.g, l.reg, l.log
    ensures l.Valid() && Unsolved(l.g.nodes)
    ensures l.Stacks() == old(l.Stacks())
    ensures old(l.doNotParse) != 0 ==> l.St() == old(l.St())
    ensures Visit(n, ev) && ev != []
    ensures l.log.calls == old(l.log.calls) + ev
    ensures l.St() == Visited(old(l.St()), l.lineMap, n)
    decreases n, 1
  {
    hide Unparse, Added, Prepared, Framed, SinksOf, Handed, Unparsed, Built, Linked, Enrolled, Shared, Listener.Valid, Listener.St,
      ReturnEntered, DeclarationEntered, DeclarationExited, CallEntered, Assigned, EchoEntered, IfEntered, IfExited, ElseEntered, WhileEntered, WhileExited, DoEntered, DoExited, ForEntered, ForExited,
      Walked, WalkedAll, WalkedOpt, WalkedElseIfs, WalkedElseIf, WalkedElse, Walk, WalkAll, WalkOpt, WalkElseIfs, WalkElseIf, WalkElse;
    l.EnterAssignment(n);
    var a := TraverseNode(n.kind.target, l);
    var b := TraverseNode(n.kind.expr, l);
    l.Hook(Exit("assignment", n.id));
    ev := [Enter("assignment", n.id)] + a + b + [Exit("assignment", n.id)];
    Regroup4(old(l.log.calls), [Enter("assignment", n.id)], a, b, [Exit("assignment", n.id)]);
  }

  /** An AssignOp's operands are not walked. */
  method TraverseAssignOp(n: Node, l: Listener) returns (ghost ev: seq<Event>)
    requires Ready(l, n) && n.kind.AssignOp?
    modifies l, l.g, l.reg, l.log
    ensures l.Valid() && Unsolved(l.g.nodes)
    ensures l.Stacks() == old(l.Stacks())
    ensures old(l.doNotParse) != 0 ==> l.St() == old(l.St())
    ensures Visit(n, ev) && ev != []
    ensures l.log.calls == old(l.log.calls) + ev
    ensures l.St() == Visited(old(l.St()), l.lineMap, n)
    decreases n, 1
  {
    hide Unparse, Added, Prepared, Framed, SinksOf, Handed, Unparsed, Built, Linked, Enrolled, Shared, Listener.Valid, Listener.St,
      ReturnEntered, DeclarationEntered, DeclarationExited, CallEntered, Assigned, EchoEntered, IfEntered, IfExited, ElseEntered, WhileEntered, WhileExited, DoEntered, DoExited, ForEntered, ForExited,
      Walked, WalkedAll, WalkedOpt, WalkedElseIfs, WalkedElseIf, WalkedElse, Walk, WalkAll, WalkOpt, WalkElseIfs, WalkElseIf, WalkElse;
    l.EnterAssignOp(n);
    l.Hook(Exit("assign_op", n.id));
    ev := [Enter("assign_op", n.id), Exit("assign_op", n.id)];
  }

  /** The listener has no binary-operation handler; the operands are walked. */
  method TraverseBinaryOp(n: Node, l: Listener) returns (ghost ev: seq<Event>)
    requires Ready(l, n) && n.kind.BinaryOp?
    modifies l, l.g, l.reg, l.log
    ensures l.Valid() && Unsolved(l.g.nodes)
    ensures l.Stacks() == old(l.Stacks())
    ensures old(l.doNotParse) != 0 ==> l.St() == old(l.St())
    ensures Visit(n, ev) && ev != []
    ensures l.log.calls == old(l.log.calls) + ev
    ensures l.St() == Visited(old(l.St()), l.lineMap, n)
    decreases n, 1
  {
    hide Unparse, Added, Prepared, Framed, SinksOf, Handed, Unparsed, Built, Linked, Enrolled, Shared, Listener.Valid, Listener.St,
      ReturnEntered, DeclarationEntered, DeclarationExited, CallEntered, Assigned, EchoEntered, IfEntered, IfExited, ElseEntered, WhileEntered, WhileExited, DoEntered, DoExited, ForEntered, ForExited,
      Walked, WalkedAll, WalkedOpt, WalkedElseIfs, WalkedElseIf, WalkedElse, Walk, WalkAll, WalkOpt, WalkElseIfs, WalkElseIf, WalkElse;
    l.Hook(Enter("binary_op", n.id));
    var a := TraverseNode(n.kind.left, l);
    var b := TraverseNode(n.kind.right, l);
    l.Hook(Exit("binary_op", n.id));
    ev := [Enter("binary_op", n.id)] + a + b + [Exit("binary_op", n.id)];
    Regroup4(old(l.log.calls), [Enter("binary_op", n.id)], a, b, [Exit("binary_op", n.id)]);
  }

  method TraverseBlock(n: Node, l: Listener) returns (ghost ev: seq<Event>)
    requires Ready(l, n) && n.kind.Block?
    modifies l, l.g, l.reg, l.log
    ensures l.Valid() && Unsolved(l.g.nodes)
    ensures l.Stacks() == old(l.Stacks())
    ensures old(l.doNotParse) != 0 ==> l.St() == old(l.St())
    ensures Visit(n, ev) && ev != []
    ensures l.log.calls == old(l.log.calls) + ev
    ensures l.St() == Visited(old(l.St()), l.lineMap, n)
    decreases n, 1
  {
    hide Unparse, Added, Prepared, Framed, SinksOf, Handed, Unparsed, Built, Linked, Enrolled, Shared, Listener.Valid, Listener.St,
      ReturnEntered, DeclarationEntered, DeclarationExited, CallEntered, Assigned, EchoEntered, IfEntered, IfExited, ElseEntered, WhileEntered, WhileExited, DoEntered, DoExited, ForEntered, ForExited,
      Walked, WalkedAll, WalkedOpt, WalkedElseIfs, WalkedElseIf, WalkedElse, Walk, WalkAll, WalkOpt, WalkElseIfs, WalkElseIf, WalkElse;
    l.Hook(Enter("block", n.id));
    var a := TraverseList(n.kind.nodes, l);
    l.Hook(Exit("block", n.id));
    ev := [Enter("block", n.id)] + a + [Exit("block", n.id)];
    Regroup3(old(l.log.calls), [Enter("block", n.id)], a, [Exit("block", n.id)]);
  }

  /** The body is walked before the condition. */
  method TraverseDoWhile(n: Node, l: Listener) returns (ghost ev: seq<Event>)
    requires Ready(l, n) && n.kind.DoWhile?
    modifies l, l.g, l.reg, l.log
    ensures l.Valid() && Unsolved(l.g.nodes)
    ensures l.Stacks() == old(l.Stacks())
    ensures old(l.doNotParse) != 0 ==> l.St() == old(l.St())
    ensures Visit(n, ev) && ev != []
    ensures l.log.calls == old(l.log.calls) + ev
    ensures l.St() == Visited(old(l.St()), l.lineMap, n)
    decreases n, 1
  {
    hide Unparse, Added, Prepared, Framed, SinksOf, Handed, Unparsed, Built, Linked, Enrolled, Shared, Listener.Valid, Listener.St,
      ReturnEntered, DeclarationEntered, DeclarationExited, CallEntered, Assigned, EchoEntered, IfEntered, IfExited, ElseEntered, WhileEntered, WhileExited, DoEntered, DoExited, ForEntered, ForExited,
      Walked, WalkedAll, WalkedOpt, WalkedElseIfs, WalkedElseIf, WalkedElse, Walk, WalkAll, WalkOpt, WalkElseIfs, WalkElseIf, WalkElse;
    l.EnterDoWhile(n);
    var a := TraverseNode(n.kind.body, l);
    var b := TraverseNode(n.kind.cond, l);
    l.ExitDoWhile(n);
    ev := [Enter("do_while", n.id)] + a + b + [Exit("do_while", n.id)];
    Regroup4(old(l.log.calls), [Enter("do_while", n.id)], a, b, [Exit("do_while", n.id)]);
  }

  method TraverseEcho(n: Node, l: Listener) returns (ghost ev: seq<Event>)
    requires Ready(l, n) && n.kind.Echo?
    modifies l, l.g, l.reg, l.log
    ensures l.Valid() && Unsolved(l.g.nodes)
    ensures l.Stacks() == old(l.Stacks())
    ensures old(l.doNotParse) != 0 ==> l.St() == old(l.St())
    ensures Visit(n, ev) && ev != []
    ensures l.log.calls == old(l.log.calls) + ev
    ensures l.St() == Visited(old(l.St()), l.lineMap, n)
    decreases n, 1
  {
    hide Unparse, Added, Prepared, Framed, SinksOf, Handed, Unparsed, Built, Linked, Enrolled, Shared, Listener.Valid,
      ReturnEntered, DeclarationEntered, DeclarationExited, CallEntered, Assigned, EchoEntered, IfEntered, IfExited, ElseEntered, WhileEntered, WhileExited, DoEntered, DoExited, ForEntered, ForExited,
      Walked, WalkedAll, WalkedOpt, WalkedElseIfs, WalkedElseIf, WalkedElse, Walk, WalkAll, WalkOpt, WalkElseIfs, WalkElseIf, WalkElse;
    ghost var s0 := l.St();
    l.EnterEcho(n);
    var a := TraverseList(n.kind.nodes, l);
    l.ExitEcho(n);
    assert old(l.doNotParse) != 0 ==> l.St() == s0;
    ev := [Enter("echo", n.id)] + a + [Exit("echo", n.id)];
    Regroup3(old(l.log.calls), [Enter("echo", n.id)], a, [Exit("echo", n.id)]);
  }

  /** A for loop's header parts are not walked, only its body. */
  method TraverseFor(n: Node, l: Listener) returns (ghost ev: seq<Event>)
    requires Ready(l, n) && n.kind.For?
    modifies l, l.g, l.reg, l.log
    ensures l.Valid() && Unsolved(l.g.nodes)
    ensures l.Stacks() == old(l.Stacks())
    ensures old(l.doNotParse) != 0 ==> l.St() == old(l.St())
    ensures Visit(n, ev) && ev != []
    ensures l.log.calls == old(l.log.calls) + ev
    ensures l.St() == Visited(old(l.St()), l.lineMap, n)
    decreases n, 1
  {
    hide Unparse, Added, Prepared, Framed, SinksOf, Handed, Unparsed, Built, Linked, Enrolled, Shared, Listener.Valid, Listener.St,
      ReturnEntered, DeclarationEntered, DeclarationExited, CallEntered, Assigned, EchoEntered, IfEntered, IfExited, ElseEntered, WhileEntered, WhileExited, DoEntered, DoExited, ForEntered, ForExited,
      Walked, WalkedAll, WalkedOpt, WalkedElseIfs, WalkedElseIf, WalkedElse, Walk, WalkAll, WalkOpt, WalkElseIfs, WalkElseIf, WalkElse;
    l.EnterFor(n);
    var a := TraverseNode(n.kind.body, l);
    l.ExitFor(n);
    ev := [Enter("for", n.id)] + a + [Exit("for", n.id)];
    Regroup3(old(l.log.calls), [Enter("for", n.id)], a, [Exit("for", n.id)]);
  }

  /** The iterated expression, then the body; exit_foreach runs the same code as exit_for. */
  method TraverseForeach(n: Node, l: Listener) returns (ghost ev: seq<Event>)
    requires Ready(l, n) && n.kind.Foreach?
    modifies l, l.g, l.reg, l.log
    ensures l.Valid() && Unsolved(l.g.nodes)
    ensures l.Stacks() == old(l.Stacks())
    ensures old(l.doNotParse) != 0 ==> l.St() == old(l.St())
    ensures Visit(n, ev) && ev != []
    ensures l.log.calls == old(l.log.calls) + ev
    ensures l.St() == Visited(old(l.St()), l.lineMap, n)
    decreases n, 1
  {
    hide Unparse, Added, Prepared, Framed, SinksOf, Handed, Unparsed, Built, Linked, Enrolled, Shared, Listener.Valid, Listener.St,
      ReturnEntered, DeclarationEntered, DeclarationExited, CallEntered, Assigned, EchoEntered, IfEntered, IfExited, ElseEntered, WhileEntered, WhileExited, DoEntered, DoExited, ForEntered, ForExited,
      Walked, WalkedAll, WalkedOpt, WalkedElseIfs, WalkedElseIf, WalkedElse, Walk, WalkAll, WalkOpt, WalkElseIfs, WalkElseIf, WalkElse;
    l.EnterForeach(n);
    var a := TraverseNode(n.kind.expr, l);
    var b := TraverseNode(n.kind.body, l);
    l.ExitForeach(n);
    ev := [Enter("foreach", n.id)] + a + b + [Exit("foreach", n.id)];
    Regroup4(old(l.log.calls), [Enter("foreach", n.id)], a, b, [Exit("foreach", n.id)]);
  }

  method TraverseFunction(n: Node, l: Listener) returns (ghost ev: seq<Event>)
    requires Ready(l, n) && n.kind.Function?
    modifies l, l.g, l.reg, l.log
    ensures l.Valid() && Unsolved(l.g.nodes)
    ensures l.Stacks() == old(l.Stacks())
    ensures old(l.doNotParse) != 0 ==> l.St() == old(l.St())
    ensures Visit(n, ev) && ev != []
    ensures l.log.calls == old(l.log.calls) + ev
    ensures l.St() == Visited(old(l.St()), l.lineMap, n)
    decreases n, 1
  {
    hide Unparse, Added, Prepared, Framed, SinksOf, Handed, Unparsed, Built, Linked, Enrolled, Shared, Listener.Valid, Listener.St,
      ReturnEntered, DeclarationEntered, DeclarationExited, CallEntered, Assigned, EchoEntered, IfEntered, IfExited, ElseEntered, WhileEntered, WhileExited, DoEntered, DoExited, ForEntered, ForExited,
      Walked, WalkedAll, WalkedOpt, WalkedElseIfs, WalkedElseIf, WalkedElse, Walk, WalkAll, WalkOpt, WalkElseIfs, WalkElseIf, WalkElse;
    l.EnterFunctionDeclaration(n);
    var a := TraverseList(n.kind.stmts, l);
    l.ExitFunctionDeclaration(n);
    ev := [Enter("function_declaration", n.id)] + a + [Exit("function_declaration", n.id)];
    Regroup3(old(l.log.calls), [Enter("function_declaration", n.id)], a, [Exit("function_declaration", n.id)]);
  }

  /**
   * `enter_function_call`, then each argument: phply hands over Parameter
   * wrappers, a kind the walk does not dispatch on and the listener never
   * records as rendered, so they give no callbacks; then
   * `exit_function_call`, which the listener leaves as a no-op.
   */
  method TraverseFunctionCall(n: Node, l: Listener) returns (ghost ev: seq<Event>)
    requires Ready(l, n) && n.kind.FunctionCall?
    modifies l, l.g, l.reg, l.log
    ensures l.Valid() && Unsolved(l.g.nodes)
    ensures l.Stacks() == old(l.Stacks())
    ensures old(l.doNotParse) != 0 ==> l.St() == old(l.St())
    ensures Visit(n, ev) && ev != []
    ensures l.log.calls == old(l.log.calls) + ev
    ensures l.St() == Visited(old(l.St()), l.lineMap, n)
    decreases n, 1
  {
    hide Unparse, Added, Prepared, Framed, SinksOf, Handed, Unparsed, Built, Linked, Enrolled, Shared, Listener.Valid, Listener.St,
      ReturnEntered, DeclarationEntered, DeclarationExited, CallEntered, Assigned, EchoEntered, IfEntered, IfExited, ElseEntered, WhileEntered, WhileExited, DoEntered, DoExited, ForEntered, ForExited,
      Walked, WalkedAll, WalkedOpt, WalkedElseIfs, WalkedElseIf, WalkedElse, Walk, WalkAll, WalkOpt, WalkElseIfs, WalkElseIf, WalkElse;
    l.EnterFunctionCall(n);
    l.Hook(Exit("function_call", n.id));
    ev := [Enter("function_call", n.id), Exit("function_call", n.id)];
  }

  /**
   * The condition and the body; each elseif body between a further
   * `enter_if`/`exit_if` pair on the outer node; the else body; then
   * `exit_if`.
   */
  method TraverseIf(n: Node, l: Listener) returns (ghost ev: seq<Event>)
    requires Ready(l, n) && n.kind.If?
    modifies l, l.g, l.reg, l.log
    ensures l.Valid() && Unsolved(l.g.nodes)
    ensures l.Stacks() == old(l.Stacks())
    ensures old(l.doNotParse) != 0 ==> l.St() == old(l.St())
    ensures Visit(n, ev) && ev != []
    ensures l.log.calls == old(l.log.calls) + ev
    ensures l.St() == Visited(old(l.St()), l.lineMap, n)
    decreases n, 1
  {
    hide Unparse, Added, Prepared, Framed, SinksOf, Handed, Unparsed, Built, Linked, Enrolled, Shared, Listener.Valid, Listener.St,
      ReturnEntered, DeclarationEntered, DeclarationExited, CallEntered, Assigned, EchoEntered, IfEntered, IfExited, ElseEntered, WhileEntered, WhileExited, DoEntered, DoExited, ForEntered, ForExited,
      Walked, WalkedAll, WalkedOpt, WalkedElseIfs, WalkedElseIf, WalkedElse, Walk, WalkAll, WalkOpt, WalkElseIfs, WalkElseIf, WalkElse;
    l.EnterIf(n);
    var a := TraverseNode(n.kind.cond, l);
    var b := TraverseNode(n.kind.body, l);
    var x := TraverseElseIfs(n, l);
    var y := TraverseElse(n, l);
    l.ExitIf(n);
    ev := [Enter("if", n.id)] + a + b + x + y + [Exit("if", n.id)];
    Regroup6(old(l.log.calls), [Enter("if", n.id)], a, b, x, y, [Exit("if", n.id)]);
    assert Walk(n.kind.cond, a) && Walk(n.kind.body, b) && WalkElseIfs(n.id, n.kind.elseifs, x) && WalkElse(n.id, n.kind.else_, y);
  }

  /** The else part of an If: `enter_else`, the else body, when there is one. */
  method TraverseElse(n: Node, l: Listener) returns (ghost ev: seq<Event>)
    requires n.kind.If? && l.Valid() && Unsolved(l.g.nodes) && l.doNotParse >= 0
    requires l.doNotParse == 0 ==> |l.ifNodes| > 0
    requires n.kind.else_.Some? ==> Fits(n.kind.else_.value, |l.lineMap|, l.doNotParse != 0)
    modifies l, l.g, l.reg, l.log
    ensures l.Valid() && Unsolved(l.g.nodes)
    ensures l.Stacks() == old(l.Stacks()).(ifNodes := l.ifNodes)
    ensures old(l.doNotParse) != 0 ==> l.ifNodes == old(l.ifNodes)
    ensures old(l.doNotParse) == 0 ==>
      var k := |old(l.ifNodes)| - 1;
      l.ifNodes == old(l.ifNodes)[..k] + [(old(l.ifNodes)[k].0, old(l.ifNodes)[k].1 || n.kind.else_.Some?)]
    ensures old(l.doNotParse) != 0 ==> l.St() == old(l.St())
    ensures WalkElse(n.id, n.kind.else_, ev)
    ensures l.log.calls == old(l.log.calls) + ev
    ensures l.St() == WalkedElse(old(l.St()), l.lineMap, n, n.kind.else_)
    decreases n, 0
  {
    hide Unparse, Added, Prepared, Framed, SinksOf, Handed, Unparsed, Built, Linked, Enrolled, Shared, Listener.Valid, Listener.St,
      ReturnEntered, DeclarationEntered, DeclarationExited, CallEntered, Assigned, EchoEntered, IfEntered, IfExited, ElseEntered, WhileEntered, WhileExited, DoEntered, DoExited, ForEntered, ForExited,
      Walked, WalkedAll, WalkedOpt, WalkedElseIfs, WalkedElseIf, Walk, WalkAll, WalkOpt, WalkElseIfs, WalkElseIf;
    ev := [];
    if n.kind.else_.Some? {
      l.EnterElse(n);
      var z := TraverseNode(n.kind.else_.value, l);
      l.Hook(Exit("else", n.id));
      ev := [Enter("else", n.id)] + z + [Exit("else", n.id)];
      Regroup3(old(l.log.calls), [Enter("else", n.id)], z, [Exit("else", n.id)]);
    }
  }

  method TraverseElseIfs(n: Node, l: Listener) returns (ghost ev: seq<Event>)
    requires n.kind.If? && l.Valid() && Unsolved(l.g.nodes) && l.doNotParse >= 0 && n.line < |l.lineMap|
    requires forall k :: 0 <= k < |n.kind.elseifs| ==> Fits(n.kind.elseifs[k].body, |l.lineMap|, l.doNotParse != 0)
    modifies l, l.g, l.reg, l.log
    ensures l.Valid() && Unsolved(l.g.nodes)
    ensures l.Stacks() == old(l.Stacks())
    ensures old(l.doNotParse) != 0 ==> l.St() == old(l.St())
    ensures WalkElseIfs(n.id, n.kind.elseifs, ev)
    ensures l.log.calls == old(l.log.calls) + ev
    ensures l.St() == WalkedElseIfs(old(l.St()), l.lineMap, n, n.kind.elseifs)
    decreases n, 0
  {
    hide Unparse, Added, Prepared, Framed, SinksOf, Handed, Unparsed, Built, Linked, Enrolled, Shared, Listener.Valid, Listener.St,
      ReturnEntered, DeclarationEntered, DeclarationExited, CallEntered, Assigned, EchoEntered, IfEntered, IfExited, ElseEntered, WhileEntered, WhileExited, DoEntered, DoExited, ForEntered, ForExited,
      Walked, WalkedAll, WalkedOpt, WalkedElseIf, WalkedElse, Walk, WalkAll, WalkOpt, WalkElseIf, WalkElse;
    var eis := n.kind.elseifs;
    ev := [];
    var i := 0;
    while i < |eis|
      invariant 0 <= i <= |eis|
      invariant l.Valid() && Unsolved(l.g.nodes)
      invariant l.Stacks() == old(l.Stacks())
      invariant old(l.doNotParse) != 0 ==> l.St() == old(l.St())
      invariant WalkElseIfs(n.id, eis[..i], ev)
      invariant l.log.calls == old(l.log.calls) + ev
      invariant l.St() == WalkedElseIfs(old(l.St()), l.lineMap, n, eis[..i])
    {
      var one := TraverseElseIf(n, eis[i], l);
      assert eis[..i + 1][..i] == eis[..i] && eis[..i + 1][i] == eis[i];
      ev := ev + one;
      i := i + 1;
    }
    assert eis[..|eis|] == eis;
  }

  /** One elseif: `enter_if` on the outer node, the elseif's body, `exit_if`. */
  method TraverseElseIf(n: Node, ei: ElseIf, l: Listener) returns (ghost ev: seq<Event>)
    requires n.kind.If? && ei in n.kind.elseifs && l.Valid() && Unsolved(l.g.nodes) && l.doNotParse >= 0 && n.line < |l.lineMap|
    requires Fits(ei.body, |l.lineMap|, l.doNotParse != 0)
    modifies l, l.g, l.reg, l.log
    ensures l.Valid() && Unsolved(l.g.nodes)
    ensures l.Stacks() == old(l.Stacks())
    ensures old(l.doNotParse) != 0 ==> l.St() == old(l.St())
    ensures WalkElseIf(n.id, ei, ev)
    ensures l.log.calls == old(l.log.calls) + ev
    ensures l.St() == WalkedElseIf(old(l.St()), l.lineMap, n, ei)
    decreases n, 0, ei
  {
    hide Unparse, Added, Prepared, Framed, SinksOf, Handed, Unparsed, Built, Linked, Enrolled, Shared, Listener.Valid, Listener.St,
      ReturnEntered, DeclarationEntered, DeclarationExited, CallEntered, Assigned, EchoEntered, IfEntered, IfExited, ElseEntered, WhileEntered, WhileExited, DoEntered, DoExited, ForEntered, ForExited,
      Walked, WalkedAll, WalkedOpt, WalkedElseIfs, WalkedElse, Walk, WalkAll, WalkOpt, WalkElseIfs, WalkElse;
    l.EnterIf(n);
    var z := TraverseNode(ei.body, l);
    l.ExitIf(n);
    ev := [Enter("if", n.id)] + z + [Exit("if", n.id)];
    Regroup3(old(l.log.calls), [Enter("if", n.id)], z, [Exit("if", n.id)]);
    assert Walk(ei.body, z);
  }

  /**
   * Both method-call callbacks are no-ops of the listener and the arguments
   * are Parameter wrappers, as for a function call: the walk changes nothing.
   */
  method TraverseMethodCall(n: Node, l: Listener) returns (ghost ev: seq<Event>)
    requires Ready(l, n) && n.kind.MethodCall?
    modifies l, l.g, l.reg, l.log
    ensures l.Valid() && Unsolved(l.g.nodes)
    ensures l.Stacks() == old(l.Stacks())
    ensures l.St() == old(l.St())
    ensures Visit(n, ev) && ev != []
    ensures l.log.calls == old(l.log.calls) + ev
    ensures l.St() == Visited(old(l.St()), l.lineMap, n)
    decreases n, 1
  {
    hide Unparse, Added, Prepared, Framed, SinksOf, Handed, Unparsed, Built, Linked, Enrolled, Shared, Listener.Valid, Listener.St,
      ReturnEntered, DeclarationEntered, DeclarationExited, CallEntered, Assigned, EchoEntered, IfEntered, IfExited, ElseEntered, WhileEntered, WhileExited, DoEntered, DoExited, ForEntered, ForExited,
      Walked, WalkedAll, WalkedOpt, WalkedElseIfs, WalkedElseIf, WalkedElse, Walk, WalkAll, WalkOpt, WalkElseIfs, WalkElseIf, WalkElse;
    l.Hook(Enter("method_call", n.id));
    l.Hook(Exit("method_call", n.id));
    ev := [Enter("method_call", n.id), Exit("method_call", n.id)];
  }

  method TraverseReturn(n: Node, l: Listener) returns (ghost ev: seq<Event>)
    requires Ready(l, n) && n.kind.Return?
    modifies l, l.g, l.reg, l.log
    ensures l.Valid() && Unsolved(l.g.nodes)
    ensures l.Stacks() == old(l.Stacks())
    ensures old(l.doNotParse) != 0 ==> l.St() == old(l.St())
    ensures Visit(n, ev) && ev != []
    ensures l.log.calls == old(l.log.calls) + ev
    ensures l.St() == Visited(old(l.St()), l.lineMap, n)
    decreases n, 1
  {
    hide Unparse, Added, Prepared, Framed, SinksOf, Handed, Unparsed, Built, Linked, Enrolled, Shared, Listener.Valid,
      ReturnEntered, DeclarationEntered, DeclarationExited, CallEntered, Assigned, EchoEntered, IfEntered, IfExited, ElseEntered, WhileEntered, WhileExited, DoEntered, DoExited, ForEntered, ForExited,
      Visit, Visited, Walked, WalkedAll, WalkedElseIfs, WalkedElseIf, WalkedElse, Walk, WalkAll, WalkElseIfs, WalkElseIf, WalkElse;
    ghost var s0 := l.St();
    l.EnterReturn(n);
    ghost var a: seq<Event> := [];
    if n.kind.result.Some? {
      a := TraverseNode(n.kind.result.value, l);
    }
    assert WalkOpt(n.kind.result, a);
    ReturnVisit(s0, l.lineMap, n, a);
    l.ExitReturn(n);
    assert old(l.doNotParse) != 0 ==> l.St() == s0;
    ev := [Enter("return", n.id)] + a + [Exit("return", n.id)];
    Regroup3(old(l.log.calls), [Enter("return", n.id)], a, [Exit("return", n.id)]);
  }

  method TraverseWhile(n: Node, l: Listener) returns (ghost ev: seq<Event>)
    requires Ready(l, n) && n.kind.While?
    modifies l, l.g, l.reg, l.log
    ensures l.Valid() && Unsolved(l.g.nodes)
    ensures l.Stacks() == old(l.Stacks())
    ensures old(l.doNotParse) != 0 ==> l.St() == old(l.St())
    ensures Visit(n, ev) && ev != []
    ensures l.log.calls == old(l.log.calls) + ev
    ensures l.St() == Visited(old(l.St()), l.lineMap, n)
    decreases n, 1
  {
    hide Unparse, Added, Prepared, Framed, SinksOf, Handed, Unparsed, Built, Linked, Enrolled, Shared, Listener.Valid, Listener.St,
      ReturnEntered, DeclarationEntered, DeclarationExited, CallEntered, Assigned, EchoEntered, IfEntered, IfExited, ElseEntered, WhileEntered, WhileExited, DoEntered, DoExited, ForEntered, ForExited,
      Walked, WalkedAll, WalkedOpt, WalkedElseIfs, WalkedElseIf, WalkedElse, Walk, WalkAll, WalkOpt, WalkElseIfs, WalkElseIf, WalkElse;
    l.EnterWhile(n);
    var a := TraverseNode(n.kind.cond, l);
    var b := TraverseNode(n.kind.body, l);
    l.ExitWhile(n);
    ev := [Enter("while", n.id)] + a + b + [Exit("while", n.id)];
    Regroup4(old(l.log.calls), [Enter("while", n.id)], a, b, [Exit("while", n.id)]);
  }

  /**
   * create_graph, after parsing: reset the registry, walk the tree with a
   * new listener, and return the solved graph. All stacks are empty again
   * and the counter is back at 0. The listener's log is a walk of the tree,
   * and the graph is get_graph's on the state that walk leaves behind.
   */
  method CreateGraph(r: DefinitionRegister, lines: seq<Loc>, name: string, tree: seq<Node>) returns (l: Listener)
    requires FitsAll(tree, |lines|, false)
    modifies r
    ensures fresh(l) && l.reg == r && l.lineMap == lines && l.name == name
    ensures l.Valid() && Solved(l.g.nodes, l.g.edges)
    ensures l.Stacks() == Frames([], [], [], [], 0, [])
    ensures WalkAll(tree, l.log.calls)
    ensures var w := WalkedAll(Initial(), lines, tree);
      var s1 := if |w.ctl.exitNodes| > 1 then Added(w, Bare(EmptyLoc, "empty", "")) else w;
      OnlySets(s1.nodes, l.g.nodes) && l.g.edges == s1.edges + CallEdgesBelow(s1.nodes, s1.ctl.functions, |s1.nodes|)
  {
    hide Unparse, Prepared, Framed, SinksOf, Handed, Unparsed, Shared, Listener.Valid, Unsolved, Solved, CallEdgesBelow, OnlySets,
      ReturnEntered, DeclarationEntered, DeclarationExited, CallEntered, Assigned, EchoEntered, IfEntered, IfExited, ElseEntered, WhileEntered, WhileExited, DoEntered, DoExited, ForEntered, ForExited,
      Walked, Visited, Visit, WalkedAll, WalkedOpt, WalkedElseIfs, WalkedElseIf, WalkedElse, Walk, WalkAll, WalkOpt, WalkElseIfs, WalkElseIf, WalkElse, FitsAll;
    r.Reset();
    l := new Listener(r, lines, name);
    assert l.St() == Initial();
    ghost var ev := TraverseList(tree, l);
    assert l.log.calls == ev;
    l.GetGraph();
  }
}
