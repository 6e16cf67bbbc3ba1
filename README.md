# wirecaml core, modelled in Dafny

wirecaml finds vulnerable lines in PHP code by machine learning over data-flow
features. This project models its static-analysis engine and the small
pieces of logic that surround it:

- **Include preprocessor** (module `Preprocessing`).
  - It works line by line.
  - It resolves `include`/`require` arguments against the project's file
    list. Each project file is used at most once.
  - It splices the included file's own lines into the including file, with
    the included file's opening and closing tags dropped.
  - It keeps a line map from each output line back to its file and
    original line.
- **Definition registry** (module `DefinitionRegistry`).
  - Each assignment site gets a dense bit position.
  - The registry hands out gen/kill masks and maps bits back to nodes.
  - Masks (Python's unbounded ints) are modelled as sets of bit positions
    in module `Masks`.
- **Statement nodes** (module `CodeNodes`).
  - Each node carries IN, OUT, gen and kill masks and a four-state taint
    status.
  - The dependencies of a node are the registered owners of the bits in
    `IN & get_def_bitmask(vars)`.
- **Control-flow graph builder** (module `PhpListener`).
  - This is the listener class: an exit frontier; if, while, for and do
    stacks; the `do_not_parse` suppression counter; the function entry/exit
    table; and the tracked name sets that nodes share by reference.
  - Its handlers run on enter and exit events. Node rendering (`unparse_node`)
    and function ids are in `PhpAst` and `FuncIds`. The static taint
    classifier is in `TaintHeuristic`.
  - The graph itself is a class with node handles and an edge set (module
    `Graphs`). It holds the lazy taint resolution `is_tainted` and the
    reaching-definitions fixed point of `get_graph`. The fixed point's
    equations are stated in `Dataflow`, and reachability (`has_path`) in
    `Reach`.
- **Tree walker** (module `PhpTraverser`). It is the enter, children, exit
  dispatch per AST kind, which skips nodes the listener has already rendered.
  - Every callback made on the listener is appended to its log (a
    `CallLog` object). Each walk method states that the log grows by exactly
    its events, and that the listener's new state is the walk specification
    (`Walked`, `Visited`) applied to the old one, with each handler's effect
    given by a state function such as `IfEntered`.
- **Feature rows** (module `Transform`).
  - It builds the dependency closure of every node, its `func_`/`const_`
    features and its vulnerability label.
- **Command scheduler** (module `Commands`). It covers the command
  dependency table, the dependency expansion, the run loop over a `visited`
  list, and the command-line split.
- **Hyperparameter grid** (module `Training`). It enumerates the cartesian
  product of a model type's parameter values, and checks the `k` argument
  of feature selection.

The AST is a datatype (`PhpAst.Node`), since parsing belongs to an external
library. A node class that the rendering does not handle itself is kept as
`Other`, with its description and its `name` attribute when the class has one.
Node handles are indices into the graph's node sequence.
Reading a file becomes a lookup in a map from path to content. The project's
file list is a constructor argument.

## Model

| member | source | states |
|---|---|---|
| CodeNodes.AsBool | wirecaml/extraction/code_node.py:5-9 | the truth value of a status (its enum value) is false exactly for NOT_TAINTED |
| CodeNodes.NewCodeNode | wirecaml/extraction/code_node.py:13-35 | a node with an assigned target takes the next gen bit, a kill mask equal to the earlier bits of that target, and OUT = gen, and it registers itself; without a target, gen, kill and OUT are empty and the registry is unchanged |
| CodeNodes.CalculateUseDefs | wirecaml/extraction/code_node.py:109-112 | a bit is in the result exactly when it is in IN and belongs to a definition of a variable the statement reads; every bit is below `next_bit` |
| CodeNodes.GetNodeDeps | wirecaml/extraction/code_node.py:114-126 | the bit-position loop returns exactly the registered owners of the bits of `IN & get_def_bitmask(vars)` |
| CodeNodes.DepsMeaning | wirecaml/extraction/code_node.py:118-126 | the owners of the use-def bits are the node dependencies, in both directions |
| CodeNodes.OwnersAll | wirecaml/extraction/code_node.py:120-124 | once the loop has passed every set bit, the collected owners are those of the whole mask |
| Masks.GuardMeansBitAtOrAbove | wirecaml/extraction/code_node.py:120 | `(1 << i) <= bitmask` holds exactly when the mask has a bit at position `i` or above, so the loop stops after the highest bit |
| Masks.Below | wirecaml/extraction/code_node.py:120 | `(1 << n) - 1` holds exactly the positions below `n` |
| Masks.MaskCardBound | wirecaml/extraction/my_php_listener.py:522-535 | a mask below `1 << n` has at most `n` bits, which bounds the fixed-point iteration |
| DefinitionRegistry.Registered | wirecaml/extraction/definition_register.py:11-17 | `add_to_defs` appends the definition to its target's list and changes no other target's list |
| DefinitionRegistry.DefinitionRegister.constructor | wirecaml/extraction/definition_register.py:6-9 | the registry starts empty with `next_bit` 0 and valid |
| DefinitionRegistry.DefinitionRegister.AddToDefs | wirecaml/extraction/definition_register.py:11-17 | the table becomes `Registered(old, target, def)` and the target's new list is returned |
| DefinitionRegistry.DefinitionRegister.GetGenKill | wirecaml/extraction/definition_register.py:20-31 | gen is `1 << next_bit` and `next_bit` grows by one; `defs_list` gets the node; kill is the earlier bits of the same target; `gen & kill == 0`; the invariant `len(defs_list) == next_bit` is kept |
| DefinitionRegistry.DefinitionRegister.GetDefInt | wirecaml/extraction/definition_register.py:23-39 | on a valid registry the node at position `i` is the node the table records for bit `i` |
| DefinitionRegistry.DefinitionRegister.GetDefBitmask | wirecaml/extraction/definition_register.py:42-52 | the loop returns the union of the gen bits of every definition of the listed targets, all below `next_bit` |
| DefinitionRegistry.DefinitionRegister.Reset | wirecaml/extraction/definition_register.py:55-58 | the table and list are emptied and `next_bit` is 0 |
| DefinitionRegistry.OrBits | wirecaml/extraction/definition_register.py:49-50 | the inner loop ORs exactly the gen bits of one target's definitions |
| DefinitionRegistry.RegisterKeepsValid | wirecaml/extraction/definition_register.py:20-31 | registering bit `next_bit` keeps the invariant: `defs_list` has one entry per bit and records each bit's node |
| DefinitionRegistry.RegisteredBits | wirecaml/extraction/definition_register.py:24-29 | the target's bits grow by exactly the new bit, which was not there before; other targets keep their bits |
| DefinitionRegistry.EarlierBitsStable | wirecaml/extraction/definition_register.py:26-29 | a later registration does not change which earlier bits a target has, so a kill mask handed out earlier still describes the table |
| DefinitionRegistry.UnassignedContributeNothing | wirecaml/extraction/definition_register.py:45-52 | targets never assigned add nothing to `get_def_bitmask` |
| DefinitionRegistry.DefBitmaskUnion | wirecaml/extraction/definition_register.py:42-52 | `get_def_bitmask` distributes over a union of variable sets |
| DefinitionRegistry.DefBitmaskBelow | wirecaml/extraction/definition_register.py:42-52 | every bit of `get_def_bitmask` is below `next_bit` |
| Graphs.Graph.constructor | wirecaml/extraction/my_php_listener.py:16-17 | a new graph has no nodes and no edges |
| Graphs.Graph.AddNode | wirecaml/extraction/my_php_listener.py:478-503 | the node is appended and its handle is the old node count |
| Graphs.Graph.AddEdge | wirecaml/extraction/my_php_listener.py:475-476 | exactly the one edge is added |
| Graphs.Graph.IsTainted | wirecaml/extraction/code_node.py:72-92 | only statuses change. Afterwards the node is TAINTED or NOT_TAINTED and the result says which. A settled node is unchanged. A TRACKED node becomes TAINTED without recursion. A MAYBE node with no dependencies becomes TAINTED. A MAYBE node with dependencies has them all settled and is TAINTED exactly when one of them is. Cycles end tainted: a node among its own dependencies, or whose dependency leads back to it, answers tainted; every node on such a cycle ends other than NOT_TAINTED; and a node already heading a chain of MAYBE dependencies to a TRACKED or TAINTED node answers tainted, with no such node turning NOT_TAINTED |
| Graphs.Graph.AskCycle | wirecaml/extraction/code_node.py:72-92 | two MAYBE nodes that depend on each other: asking one answers tainted and leaves both TAINTED |
| Graphs.SelfBound | wirecaml/extraction/code_node.py:73-74 | once a node is marked TRACKED, a dependency on itself puts it at the head of a chain ending at a TRACKED node |
| Graphs.CycleBound | wirecaml/extraction/code_node.py:73-90 | once `n` is marked TRACKED, a MAYBE dependency that depends back on `n` heads such a chain |
| Graphs.BoundNotClean | wirecaml/extraction/code_node.py:72-92 | a node heading such a chain is not NOT_TAINTED |
| Graphs.Graph.Resolve | wirecaml/extraction/code_node.py:80-90 | the MAYBE branch: the node settles; it is TAINTED when it has no dependencies, and otherwise exactly when a dependency ended TAINTED. It ends TAINTED when it headed a chain of MAYBE dependencies to a TRACKED or TAINTED node, or when, once it is marked TRACKED, one of its dependencies leads back to it; the other nodes on such chains do not end NOT_TAINTED |
| Graphs.Graph.AskAll | wirecaml/extraction/code_node.py:83-86 | every dependency is asked and ends settled; the flag says whether any ended TAINTED, and it is set when a dependency headed a chain to a TRACKED or TAINTED node |
| Graphs.MaybesShrink | wirecaml/extraction/code_node.py:72-92 | statuses only move from MAYBE towards settled, so the set of MAYBE nodes never grows; this is why the recursion terminates |
| Graphs.Graph.ReachingDefinitions | wirecaml/extraction/my_php_listener.py:522-535 | the `while change` loop ends with every node satisfying `IN = OR of predecessors' OUT` and `OUT = gen \| (IN & ~kill)`; OUT only gains bits and stays below `1 << next_bit` |
| Graphs.Graph.Sweep | wirecaml/extraction/my_php_listener.py:525-533 | one sweep only adds OUT bits; the change flag is true exactly when some OUT changed, and a sweep without change leaves the equations solved |
| Graphs.SweepStep | wirecaml/extraction/my_php_listener.py:525-533 | updating one more node keeps the sweep invariant |
| Graphs.SweepDone | wirecaml/extraction/my_php_listener.py:535 | a completed sweep with no change means the system is solved |
| Dataflow.InOfMonotone | wirecaml/extraction/my_php_listener.py:526-529 | IN is monotone in the predecessors' OUT sets |
| Dataflow.InOfBelow | wirecaml/extraction/my_php_listener.py:526-529 | IN stays below `1 << next_bit` when every OUT does |
| Dataflow.TotalOutGrows | wirecaml/extraction/my_php_listener.py:522-535 | growing OUT sets never lower the measure, and a strictly grown one raises it |
| Dataflow.TotalOutBound | wirecaml/extraction/my_php_listener.py:522-535 | the measure is bounded by nodes times `next_bit` |
| Dataflow.UpdateKeepsBelow | wirecaml/extraction/my_php_listener.py:528-531 | one node update keeps OUT below its equation and within the bit bound, and only adds bits |
| Reach.ReachesStep | wirecaml/extraction/my_php_listener.py:164-165 | reachability extends along an edge |
| Reach.ClosedHoldsReach | wirecaml/extraction/my_php_listener.py:164-165 | a set that holds the start and is closed under edges holds every reachable node |
| Reach.ReachableFrom | wirecaml/extraction/my_php_listener.py:164-165 | the work-list search returns exactly the nodes `has_path` reports from the source |
| TaintHeuristic.StaticTaint | wirecaml/extraction/my_php_listener.py:550-573 | NOT_TAINTED exactly for a primitive literal, a cast to int/float/double/bool/long, a non-`.` binary operation with a primitive operand, a ternary with a primitive branch, or any node whose `name` attribute is `floatval`/`intval`: a constant, variable, property, function, call or method call, and also a class the tree keeps only by description, such as a static method call, `new` or a static property, whose `name` it carries; MAYBE_TAINTED otherwise |
| TaintHeuristic.StaticTaintExamples | tests/extraction_myphplistener_tests.py:103-177 | the classifications the listener tests expect: request parameters, float casts, `+ 0`, `floatval`, `intval`, a `.` concatenation, literals; also a static call `Foo::intval(...)`, which is NOT_TAINTED by its name |
| FuncIds.GenerateFuncId | wirecaml/extraction/my_php_listener.py:576-588 | an id exists exactly when the text has a `(` followed later by a `)`, where the regular expression matches |
| FuncIds.FuncIdOfSignature | wirecaml/extraction/my_php_listener.py:576-588 | `name(p1, ..., pk)` with simple parts gives `name` followed by the decimal `k`; `name()` gives `name0` |
| FuncIds.DeclarationId | wirecaml/extraction/my_php_listener.py:47-51 | a function declaration's rendering gets its name plus its parameter count |
| FuncIds.CallId | wirecaml/extraction/my_php_listener.py:58-71 | a call with simple arguments gets its name plus its argument count, so it links to a declaration of the same name and arity |
| FuncIds.NestedCallId | wirecaml/extraction/my_php_listener.py:576-588 | a nested call `f(g(x))` gets the id `f(g1`, so it is not linked to `f` |
| FuncIds.JoinCommas | wirecaml/extraction/my_php_listener.py:583-586 | comma-free parts joined by `, ` contain one comma fewer than there are parts |
| FuncIds.UnparseListText | wirecaml/extraction/my_php_listener.py:302-446 | a rendered list is the renderings of its items joined by the separator |
| PhpAst.NatToString | wirecaml/extraction/my_php_listener.py:588 | the rendering of a count is a non-empty string of decimal digits without a leading zero, and the digits denote the count |
| PhpAst.NatToStringInjective | wirecaml/extraction/my_php_listener.py:588 | distinct counts render differently, so ids of different arities differ |
| PhpAst.UnparseWithin | wirecaml/extraction/my_php_listener.py:302-446 | a rendering records the node first, touches only ids of the node and what lies below it, and collects only the names of Variable, FunctionCall and Constant nodes below it; a variable records its own name, a call its function's name and a constant its own name |
| PhpAst.ParamNames | wirecaml/extraction/my_php_listener.py:302-446 | a declaration's parameter names are its parameters without their `$` |
| PhpListener.SinksInOf | wirecaml/extraction/my_php_listener.py:162-167 | the scan over all nodes gives exactly the nodes without successors that the if node reaches, in node order |
| PhpListener.RenderedCallHasId | wirecaml/extraction/my_php_listener.py:47-71 | every function declaration and call renders to a text that has a function id |
| PhpListener.SharedKeeps | wirecaml/extraction/my_php_listener.py:302-446 | adding names to a tracked set updates every node that holds that set and changes nothing else about the nodes |
| PhpListener.Listener.constructor | wirecaml/extraction/my_php_listener.py:15-32 | an empty graph, frontier, stacks and function table, counter 0, nothing traversed or tracked |
| PhpListener.Listener.Hook | wirecaml/extraction/phptraverser/php_listener.py:1-106 | a callback of the base listener that the builder does not override does nothing but appear in the log |
| PhpListener.Listener.AddNode | wirecaml/extraction/my_php_listener.py:478-503 | outside a function the new node gets an edge from each frontier node. Inside one, the first node becomes the function's entry and exit and gets no edge, and a later node becomes its exit. The frontier is emptied |
| PhpListener.Listener.AddNew | wirecaml/extraction/my_php_listener.py:478-503 | building a node (registering its target) and adding it gives the state `Added` |
| PhpListener.Listener.SetExitNodes | wirecaml/extraction/my_php_listener.py:467-473 | the frontier becomes the given nodes and nothing else changes |
| PhpListener.Listener.AddExitNode | wirecaml/extraction/my_php_listener.py:464-465 | one node is appended to the frontier |
| PhpListener.Listener.AddEdge | wirecaml/extraction/my_php_listener.py:475-476 | one edge is added and nothing else changes |
| PhpListener.Listener.ResetTracking | wirecaml/extraction/my_php_listener.py:450-453 | the tracked sets become new empty sets that no node holds |
| PhpListener.Listener.UnparseNode | wirecaml/extraction/my_php_listener.py:302-446 | the text is the rendering; the rendered nodes are recorded as traversed; their names are added to the tracked sets, and every node holding those sets sees them |
| PhpListener.Listener.EnterReturn | wirecaml/extraction/my_php_listener.py:34-42 | outside suppression, a `return` node holding the tracked sets, which are not reset first, is added without becoming the frontier; the counter goes up by one in every case; the callback `enter_return` is appended to the listener's log, and the new state is `ReturnEntered` of the old one |
| PhpListener.Listener.ExitReturn | wirecaml/extraction/my_php_listener.py:44-45 | the counter goes down by one; the callback `exit_return` is appended to the listener's log, and the new state is `Resumed` of the old one |
| PhpListener.Listener.EnterFunctionDeclaration | wirecaml/extraction/my_php_listener.py:47-51 | outside suppression, the declaration's id is pushed with the frontier before it; the callback `enter_function_declaration` is appended to the listener's log, and the new state is `DeclarationEntered` of the old one |
| PhpListener.Listener.ExitFunctionDeclaration | wirecaml/extraction/my_php_listener.py:53-56 | the declaration is popped and the frontier from before it is restored; the callback `exit_function_declaration` is appended to the listener's log, and the new state is `DeclarationExited` of the old one |
| PhpListener.Listener.EnterFunctionCall | wirecaml/extraction/my_php_listener.py:58-71 | outside suppression, a call node whose statement is the call's rendering becomes the whole frontier; the callback `enter_function_call` is appended to the listener's log, and the new state is `CallEntered` of the old one |
| PhpListener.Listener.EnterAssignment | wirecaml/extraction/my_php_listener.py:73-87 | outside suppression, an `expression` node defining the target, with the statically classified taint of the right-hand side and the tracked variables less the target, becomes the whole frontier; the callback `enter_assignment` is appended to the listener's log, and the new state is `Assigned` of the old one |
| PhpListener.Listener.EnterAssignOp | wirecaml/extraction/my_php_listener.py:89-103 | the same as an assignment, for compound assignment; the callback `enter_assign_op` is appended to the listener's log, and the new state is `Assigned` of the old one |
| PhpListener.Listener.EnterEcho | wirecaml/extraction/my_php_listener.py:105-123 | outside suppression, an `echo` node whose functions include `echo` becomes the frontier; it is untainted when every echoed expression is; the counter goes up by one; the callback `enter_echo` is appended to the listener's log, and the new state is `EchoEntered` of the old one |
| PhpListener.Listener.ExitEcho | wirecaml/extraction/my_php_listener.py:125-126 | the counter goes down by one; the callback `exit_echo` is appended to the listener's log, and the new state is `Resumed` of the old one |
| PhpListener.Listener.EnterIf | wirecaml/extraction/my_php_listener.py:128-156 | outside suppression, an `if` node, defining the target of an assignment operand of the condition if there is one, becomes the frontier and is pushed with "no else seen"; the callback `enter_if` is appended to the listener's log, and the new state is `IfEntered` of the old one |
| PhpListener.Listener.ExitIf | wirecaml/extraction/my_php_listener.py:158-170 | the if is popped; the frontier becomes every node without a successor that the if node reaches, in node order, plus the if node when no else was seen; the callback `exit_if` is appended to the listener's log, and the new state is `IfExited` of the old one |
| PhpListener.Listener.EnterElseIf | wirecaml/extraction/my_php_listener.py:172-177 | the frontier becomes the if node |
| PhpListener.Listener.EnterElse | wirecaml/extraction/my_php_listener.py:179-185 | the frontier becomes the if node and the if is marked as having an else; the callback `enter_else` is appended to the listener's log, and the new state is `ElseEntered` of the old one |
| PhpListener.Listener.EnterWhile | wirecaml/extraction/my_php_listener.py:187-211 | outside suppression, a `while` node becomes the frontier and is pushed; it defines an assignment condition's target; the callback `enter_while` is appended to the listener's log, and the new state is `WhileEntered` of the old one |
| PhpListener.Listener.CloseLoop | wirecaml/extraction/my_php_listener.py:213-225 | a frontier of several nodes is joined through one `empty` node; one back edge runs from the first frontier node to the header; the header is re-added to the frontier when asked |
| PhpListener.Listener.ExitWhile | wirecaml/extraction/my_php_listener.py:213-225 | the header is popped and the loop is closed with the header back on the frontier; the callback `exit_while` is appended to the listener's log, and the new state is `WhileExited` of the old one |
| PhpListener.Listener.EnterDoWhile | wirecaml/extraction/my_php_listener.py:227-235 | outside suppression, a `do` node becomes the frontier and is pushed; the callback `enter_do_while` is appended to the listener's log, and the new state is `DoEntered` of the old one |
| PhpListener.Listener.ExitDoWhile | wirecaml/extraction/my_php_listener.py:237-256 | outside suppression, a `while` node for the condition becomes the frontier with a back edge to the popped `do` node; the callback `exit_do_while` is appended to the listener's log, and the new state is `DoExited` of the old one |
| PhpListener.Listener.EnterFor | wirecaml/extraction/my_php_listener.py:258-267 | outside suppression, a `for` node becomes the frontier and is pushed; the callback `enter_for` is appended to the listener's log, and the new state is `ForEntered` of the old one |
| PhpListener.Listener.ExitFor | wirecaml/extraction/my_php_listener.py:269-279 | the header is popped and the loop is closed without re-adding the header; the callback `exit_for` is appended to the listener's log, and the new state is `ForExited` of the old one |
| PhpListener.Listener.ExitForeach | wirecaml/extraction/my_php_listener.py:290-300 | the same as `exit_for`, under its own callback: the header is popped and the loop is closed without re-adding the header; `exit_foreach` is appended to the log, and the new state is `ForExited` of the old one |
| PhpListener.Listener.EnterForeach | wirecaml/extraction/my_php_listener.py:281-288 | outside suppression, a `foreach` node becomes the frontier and is pushed on the for stack; the callback `enter_foreach` is appended to the listener's log, and the new state is `ForEntered` of the old one |
| PhpListener.Listener.GetGraph | wirecaml/extraction/my_php_listener.py:508-537 | an `empty` sink joins a frontier of several nodes; the call edges (call to entry, exit to call) of every call naming a declared function are added; the result solves the reaching-definitions equations |
| PhpListener.Listener.LinkCalls | wirecaml/extraction/my_php_listener.py:513-520 | exactly the call edges of all nodes are added |
| PhpListener.Listener.Solve | wirecaml/extraction/my_php_listener.py:522-535 | only the IN and OUT sets change, and they solve the equations |
| PhpTraverser.TraverseNode | wirecaml/extraction/phptraverser/php_traverser.py:11-152 | an already rendered node gives no events and changes nothing. Otherwise the events are `Visit`: enter, the children in their order, exit; a call or method call gives enter and exit only, since its arguments are Parameter wrappers that no branch dispatches on. Only the dispatched kinds give events. The stacks are left as they were. The listener's log grows by exactly those events, and the new state is the walk specification `Walked` of the old one |
| PhpTraverser.TraverseList | wirecaml/extraction/phptraverser/php_traverser.py:6-9 | the nodes are walked in list order; the log grows by the walks' events and the new state is `WalkedAll` of the old one |
| PhpTraverser.TraverseAssignment | wirecaml/extraction/phptraverser/php_traverser.py:18-22 | enter, the target, the expression, exit; the log grows by exactly these events, each made on the listener by the handler of that name, and the new state is `Visited` of the old one |
| PhpTraverser.TraverseAssignOp | wirecaml/extraction/phptraverser/php_traverser.py:27-29 | enter and exit with no children; the log grows by exactly these events, each made on the listener by the handler of that name, and the new state is `Visited` of the old one |
| PhpTraverser.TraverseBinaryOp | wirecaml/extraction/phptraverser/php_traverser.py:34-38 | the left operand, then the right; the log grows by exactly these events, each made on the listener by the handler of that name, and the new state is `Visited` of the old one |
| PhpTraverser.TraverseBlock | wirecaml/extraction/phptraverser/php_traverser.py:43-47 | the statements in order; the log grows by exactly these events, each made on the listener by the handler of that name, and the new state is `Visited` of the old one |
| PhpTraverser.TraverseDoWhile | wirecaml/extraction/phptraverser/php_traverser.py:52-56 | enter, the body, the condition, exit; the log grows by exactly these events, each made on the listener by the handler of that name, and the new state is `Visited` of the old one |
| PhpTraverser.TraverseEcho | wirecaml/extraction/phptraverser/php_traverser.py:61-65 | enter, the echoed expressions in order, exit; the log grows by exactly these events, each made on the listener by the handler of that name, and the new state is `Visited` of the old one |
| PhpTraverser.TraverseFor | wirecaml/extraction/phptraverser/php_traverser.py:70-74 | enter, the body only, exit; the log grows by exactly these events, each made on the listener by the handler of that name, and the new state is `Visited` of the old one |
| PhpTraverser.TraverseForeach | wirecaml/extraction/phptraverser/php_traverser.py:78-82 | enter, the iterated expression, the body, exit; the log grows by exactly these events, each made on the listener by the handler of that name, and the new state is `Visited` of the old one |
| PhpTraverser.TraverseFunction | wirecaml/extraction/phptraverser/php_traverser.py:87-91 | enter, the body statements in order, exit; the log grows by exactly these events, each made on the listener by the handler of that name, and the new state is `Visited` of the old one |
| PhpTraverser.TraverseFunctionCall | wirecaml/extraction/phptraverser/php_traverser.py:96-100 | enter and exit only: the arguments are Parameter wrappers, which give no callbacks, so the only node added is the call's own; the log grows by exactly these events, each made on the listener by the handler of that name, and the new state is `Visited` of the old one |
| PhpTraverser.TraverseIf | wirecaml/extraction/phptraverser/php_traverser.py:105-119 | `enter_if`, the condition, the body; for each elseif another `enter_if`, its body, `exit_if`; the else part; the final `exit_if`; the log grows by exactly these events, each made on the listener by the handler of that name, and the new state is `Visited` of the old one |
| PhpTraverser.TraverseElseIfs | wirecaml/extraction/phptraverser/php_traverser.py:110-113 | the elseifs in order; the log grows by exactly these events and the new state is `WalkedElseIfs` of the old one |
| PhpTraverser.TraverseElseIf | wirecaml/extraction/phptraverser/php_traverser.py:111-113 | `enter_if` on the outer node, the elseif's body, `exit_if`; the log grows by exactly these events and the new state is `WalkedElseIf` of the old one |
| PhpTraverser.TraverseElse | wirecaml/extraction/phptraverser/php_traverser.py:114-117 | when there is an else: `enter_else`, its body, `exit_else`, and the if is marked as having an else; the log grows by exactly these events and the new state is `WalkedElse` of the old one |
| PhpTraverser.TraverseMethodCall | wirecaml/extraction/phptraverser/php_traverser.py:124-128 | enter and exit only, for the same reason, and the listener's state is unchanged; the log grows by exactly these events, each made on the listener by the handler of that name, and the new state is `Visited` of the old one |
| PhpTraverser.TraverseReturn | wirecaml/extraction/phptraverser/php_traverser.py:133-136 | enter, the returned expression, exit; the log grows by exactly these events, each made on the listener by the handler of that name, and the new state is `Visited` of the old one |
| PhpTraverser.TraverseWhile | wirecaml/extraction/phptraverser/php_traverser.py:148-152 | enter, the condition, the body, exit; the log grows by exactly these events, each made on the listener by the handler of that name, and the new state is `Visited` of the old one |
| PhpTraverser.CreateGraph | wirecaml/extraction/cfg.py:15-37 | a reset registry, a new listener and a walk of the tree give a solved graph, with every stack empty and the counter back at 0. The listener's log is a walk of the tree, and the graph is `get_graph`'s on the state `WalkedAll` gives from a new listener's state |
| ListenerScenarios.IfScenario | tests/extraction_myphplistener_tests.py:47-61 | `if ($a) { foo(); }`, walked by the traverser, gives the nodes `if`, `foo()` and `empty` and the three edges if to call, call to empty and if to empty, so the call is a neighbour of the root; the log is a walk of the tree |
| ListenerScenarios.WhileScenario | tests/extraction_myphplistener_tests.py:74-91 | `while(true) { foo(); bar(); }`, walked by the traverser, gives four nodes and five edges: header to `foo()`, `foo()` to `bar()`, the back edge, and both `bar()` and the header to `empty`; the header's neighbours are `foo()` and `empty`; the log is a walk of the tree |
| ListenerScenarios.IfTraversed | wirecaml/extraction/phptraverser/php_traverser.py:105-119 | the traverser's walk of `if ($a) { foo(); }` leaves the listener with the graph, frontier, function table and stacks that `enter_if`, `enter_function_call` and `exit_if` called by hand leave, and its log is a walk of the tree |
| ListenerScenarios.IfWalk | wirecaml/extraction/phptraverser/php_traverser.py:105-119 | the walk specification of that if is `enter_if`, then `enter_function_call`, then `exit_if`: the condition, rendered by `enter_if`, is skipped |
| ListenerScenarios.WhileTraversed | wirecaml/extraction/phptraverser/php_traverser.py:148-152 | the traverser's walk of `while(true) { foo(); bar(); }` leaves the listener where `enter_while`, two `enter_function_call` and `exit_while` called by hand leave it, and its log is a walk of the tree |
| ListenerScenarios.WhileWalk | wirecaml/extraction/phptraverser/php_traverser.py:148-152 | the walk specification of that loop is `enter_while`, the two calls, then `exit_while`: the condition, rendered by `enter_while`, is skipped |
| ListenerScenarios.FunctionScenario | tests/extraction_myphplistener_tests.py:115-121 | a declared function called once gives three nodes and three edges: call to the last echo, call to the body and back |
| ListenerScenarios.TaintScenario | tests/extraction_myphplistener_tests.py:180-187 | after `$tainted = $_GET[...]; $a = $tainted . "foobar";`, asking the first node and then the second both answer tainted, and both end TAINTED |
| ListenerScenarios.StepAssign | wirecaml/extraction/my_php_listener.py:73-87 | an assignment at top level appends an `expression` node linked from the frontier, with the static taint of its value, the names it reads less the target, the next gen bit and the target's earlier bits as kill; the definition is registered |
| Preprocessing.RStrip | wirecaml/extraction/preprocessor.py:49 | `rstrip` keeps the longest prefix that does not end in whitespace, and only whitespace is removed |
| Preprocessing.Clean | wirecaml/extraction/preprocessor.py:15 | the name has no quotes and no surrounding whitespace |
| Preprocessing.Lines | wirecaml/extraction/preprocessor.py:49 | `splitlines(True)`: the lines concatenate back to the text, and each ends in its only line break, except possibly the last |
| Preprocessing.CallAt | wirecaml/extraction/preprocessor.py:7 | the include pattern matches at a position exactly when the keyword and `(` are there and a non-empty text runs up to the first `)`; that text is the argument |
| Preprocessing.IncludeArgLeftmost | wirecaml/extraction/preprocessor.py:61-65 | `re.search`: no argument exactly when nothing matches, otherwise the argument of the leftmost match |
| Preprocessing.SearchTag | wirecaml/extraction/preprocessor.py:8-9 | `re.search` for the opening tag (`<?php` in any case followed by whitespace) or the closing `?>`: None exactly when the tag occurs nowhere from the given position, otherwise the leftmost position where it occurs |
| Preprocessing.Resolve | wirecaml/extraction/preprocessor.py:20-27 | None exactly when no project file qualifies; otherwise the first, in listing order, that is not yet included and is the name or ends in `/name` or `\name` |
| Preprocessing.ExpandFile | wirecaml/extraction/preprocessor.py:42-73 | the included list only grows and stays well formed, and every output line is tagged with its file and 1-based line |
| Preprocessing.VerbatimWithoutIncludes | wirecaml/extraction/preprocessor.py:47-71 | a file without a resolving include comes out as its text with trailing whitespace stripped, and nothing is included |
| Preprocessing.Preprocessor.constructor | wirecaml/extraction/preprocessor.py:6-12 | the project list is given and nothing is included yet |
| Preprocessing.Preprocessor.ParseFileName | wirecaml/extraction/preprocessor.py:14-27 | the result is `Resolve` of the cleaned name; a found file is recorded as included, so it is returned at most once |
| Preprocessing.Preprocessor.PreprocessLines | wirecaml/extraction/preprocessor.py:42-73 | the line loop with its recursion gives exactly `ExpandFile` |
| Preprocessing.Preprocessor.PreprocessLine | wirecaml/extraction/preprocessor.py:51-71 | one line is dropped as a tag, replaced by the included file's lines, or kept with its origin |
| Preprocessing.Preprocessor.PreprocessFile | wirecaml/extraction/preprocessor.py:29-40 | the line map has one entry more than there are output lines; entry 0 is `(None, None)` and entry k is the origin of line k; the output is the lines' text |
| Preprocessing.Preprocessor.ResetIncludedFiles | wirecaml/extraction/preprocessor.py:75-76 | nothing is included any more |
| Transform.Closure | wirecaml/transformation/transform.py:17-32 | the reference closure is the least set containing the start that is closed under dependencies |
| Transform.GetNodeWithDependencies | wirecaml/transformation/transform.py:17-32 | the result contains `track \| nodes`; it is exactly that when no node has a dependency outside `nodes`; it is below every closed superset; it is closed when the tracked nodes' dependencies are covered; every recursive call enlarges `track` |
| Transform.CollectDeps | wirecaml/transformation/transform.py:20-21 | the loop collects the union of the nodes' dependencies |
| Transform.ClosureOfOne | wirecaml/transformation/transform.py:44 | from an empty track, the result is the reference closure |
| Transform.IsVulnerable | wirecaml/transformation/transform.py:13-14 | true exactly when some pair's file is a key of the table and its line is in that key's list |
| Transform.FeatureNames | wirecaml/transformation/transform.py:47-67 | the features are empty exactly when no node of the closure calls a function or uses a constant |
| Transform.PathLocs | wirecaml/transformation/transform.py:72 | the locations of exactly the closure's nodes |
| Transform.TransformNodes | wirecaml/transformation/transform.py:41-80 | every status is resolved; a row is emitted exactly for the nodes with features, in node order, each with its location, status and features; with `mark_whole_path` the label is whether the closure touches a flaw; otherwise the remembered line is the first vulnerable node with the strictly largest closure |
| Transform.VulnerableIff | wirecaml/transformation/transform.py:72 | `is_vulnerable` on a closure's locations says whether the closure touches a flaw line |
| Transform.BestPicked | wirecaml/transformation/transform.py:76-78 | the running maximum at the end is the first vulnerable node with the largest closure |
| Transform.FirstLargestUnique | wirecaml/transformation/transform.py:76-78 | at most one node is the first with the largest vulnerable closure |
| Transform.Label | wirecaml/transformation/transform.py:88-89 | without `mark_whole_path` the rows at the remembered line, if any, become vulnerable and nothing else changes |
| Transform.LabelAsWritten | wirecaml/transformation/transform.py:84-89 | the labelling as written fails exactly when there are rows, no `mark_whole_path` and no remembered line; otherwise it agrees with `Label` |
| Transform.LabelAsWrittenFails | wirecaml/transformation/transform.py:89 | one row and no flaw line make the labelling as written fail |
| Transform.TransformGraph | wirecaml/transformation/transform.py:35-89 | the rows of the node loop with their labels: each row matches its node, and its label is the one `Labelled` specifies |
| Transform.LabelRight | wirecaml/transformation/transform.py:88-89 | the labelling gives every row the specified label and changes nothing else in it |
| Transform.SomeRowVulnerable | wirecaml/transformation/transform.py:72-89 | without `mark_whole_path`, some row is vulnerable exactly when some emitted node's closure touches a flaw line |
| Commands.DirectDeps | wirecaml/__main__.py:33-49 | each listed dependency ranks lower than its command, so the table has no cycle; an unlisted command has none |
| Commands.GetDependencies | wirecaml/__main__.py:52-60 | the recursion gives the expansion; an unlisted command gives `[c]` |
| Commands.ExpansionEnds | wirecaml/__main__.py:52-60 | the expansion ends with the command itself |
| Commands.FrontOrder | wirecaml/__main__.py:55-58 | the direct dependencies' expansions come in reverse table order, the one listed last first |
| Commands.ExpansionContents | wirecaml/__main__.py:52-60 | the expansion holds the command and exactly the commands it depends on, directly or not |
| Commands.ExpansionOrdered | wirecaml/__main__.py:52-60 | each command in the expansion comes after all the commands it directly needs |
| Commands.OrderedTransitive | wirecaml/__main__.py:52-60 | in such a list, each command also comes after everything it needs indirectly |
| Commands.Runner.constructor | wirecaml/__main__.py:29 | nothing has run yet |
| Commands.Runner.RunCommands | wirecaml/__main__.py:63-70 | old runs are kept and each command runs at most once; only commands with a `cmd_` function run. The run completes exactly when every requested command's expansion holds only such commands or ones that had already run, and then every requested command and everything it needs has run. Only needed commands run, and each runs after its direct needs |
| Commands.Runner.RunAll | wirecaml/__main__.py:65-70 | the inner loop runs every command of one expansion not yet visited, in order, and stops at the first without a `cmd_` function; it completes exactly when every command of the expansion has one or ran before the request |
| Commands.KnownDeps | wirecaml/__main__.py:33-49 | every command the dependency table names, directly or not, has a `cmd_` function |
| Commands.KnownRunnable | wirecaml/__main__.py:63-70 | a requested command that has a `cmd_` function always runs in full |
| Commands.JoinSplit | wirecaml/__main__.py:398 | joining the pieces of `split` gives back the string |
| Commands.CommandList | wirecaml/__main__.py:386-398 | no command list without arguments; otherwise the first argument without spaces, split at commas, with pieces free of spaces and commas |
| Training.GetHyperparameterCombinations | wirecaml/model/train.py:133-152 | None for an unknown model type; otherwise one dictionary per element of the product of the value lists, mapping the parameter names to that element |
| Training.MakeCombo | wirecaml/model/train.py:145-148 | the inner loop builds the dictionary of one element |
| Training.SplitItems | wirecaml/model/train.py:138-141 | the parameter names and value lists side by side |
| Training.MakeCombos | wirecaml/model/train.py:144-150 | one dictionary per element of the product, in order |
| Training.ComboAt | wirecaml/model/train.py:145-148 | with distinct names, each parameter maps to its own value and nothing else is in the dictionary |
| Training.Product | wirecaml/model/train.py:144 | as many elements as the product of the list lengths, each with one entry per list |
| Training.ProductMembers | wirecaml/model/train.py:144 | each element takes one value from each list, in list order |
| Training.ProductComplete | wirecaml/model/train.py:144 | every choice of one value per list is an element |
| Training.LastFastest | wirecaml/model/train.py:138-144 | entry `i * \|l\| + k` of the product with a list `l` appended is entry `i` of the product without it, followed by `l[k]`: the last parameter varies fastest |
| Training.GridShape | wirecaml/model/train.py:138-150 | as many combinations as the product of the list lengths; each maps every parameter, and nothing else, to a value from its list; every such mapping is a combination |
| Training.TableKeysDistinct | wirecaml/model/train.py:20-57 | the parameter names of each model type are distinct |
| Training.TableGridShape | wirecaml/model/train.py:20-57 | every model type's grid maps each parameter, and only those, to a value from that parameter's list |
| Training.CheckK | wirecaml/model/train.py:160-162 | the program continues exactly when `0 <= k <= columns` |

## Left out

- Parsing PHP: the phply lexer and parser are an external library. The AST is a datatype, and a parse error is not modelled; the tree is an input.
- `unparse_node` rendering: Python's `repr` quoting of literals is abstracted to a plain quoted rendering.
- networkx: the graph is a class with node handles and an edge set. `has_path` becomes `Reach.Reaches`. Node iteration order is handle order, which is insertion order.
- The DOT attributes (`get_attr`, font and shape fields) and `create_png` are display-only and are not modelled.
- `get_def_bit` is not modelled. It uses the floating-point `math.log`.
- The getters and setters of `CodeNode` are field reads and updates of the `CodeNode` datatype inside `Graph`.
- PhpListener.Listener.GetLocation: returns the line-map entry without an ensures. Every entry is a tuple, so the `("", -1)` fallback of `get_location` can never apply.
- PhpListener.Listener.IsTraversed: compares node ids instead of Python object identity. Each AST node carries a distinct id.
- Call arguments: phply wraps each argument in a `Parameter` node. The AST keeps only the wrapped nodes, for rendering. The walk gives a call no argument events, which is what the unhandled wrapper amounts to in the source.
- The scenarios of the listener tests start from the AST the parser would give; parsing is not modelled. The if and while tests are walked by the traverser; the function and taint tests call the listener's handlers in the order the walk dispatches them.
- The no-op hooks of the base listener (`exit_assignment`, `enter_binary_op`, `enter_variable` and the like) are `Listener.Hook`: they are appended to the listener's log and change no other state.
- `enter_elseif` is modelled, but the walker never calls it. An elseif goes through a second `enter_if`/`exit_if` on the outer node, as in the source.
- PhpListener.Listener.EnterWhile: classifies the taint of the condition's assignment target, not its right-hand side, exactly as the source does.
- `path_cache.py` is not part of this model. The project file list is a constructor argument, and file contents come from a map from path to text. Every listed file is required to be readable.
- Preprocessing.Lines: treats only `\n` as a line break. Python's `splitlines` also breaks at `\r`, `\r\n` and other separators.
- Preprocessing.Lower: folds only ASCII letters. Case-insensitive matching of Latin-1 letters outside ASCII is not modelled.
- Preprocessing.Preprocessor.PreprocessFile: requires the file to be listed. A missing file would raise in the source.
- `get_node_with_dependencies` updates `track_nodes` in place, and the caller's set is updated too. The model returns the new set instead. `transform_graph` always passes a fresh set, so the difference cannot be seen.
- Transform.TransformGraph: the `DataFrame` construction, `fillna`, `sort_values` by line (row order) and the optional feature filter are not modelled. Rows are the list `lines` before pandas, labelled as `df.loc` would label them.
- Transform.TransformGraph: each node's dependencies are computed once, from the graph before statuses change. Resolving statuses changes only statuses, so the dependencies stay the same.
- `transform_file`, `transform_sets`, `create_popular_features` and the pickle and pool code are I/O and multiprocessing, and are not modelled.
- The `cmd_*` bodies are not modelled: a command's run is recorded as its name in `visited`. The KeyError that `globals()["cmd_" + ex]` raises for a name without a `cmd_` function is modelled as `RunCommands` returning false at that point, with nothing more run. `print_help` is not modelled either; an empty argument list gives `None`.
- Model training, fitting and selection (sklearn, Weka), metrics, plotting, datasets, `config.py` and `ascii.py` are not part of this model. Only the `k` check of `select_features` is kept.
- Graphs.Graph.ReachingDefinitions and Graphs.Graph.AskAll take ghost bound parameters. These only serve the termination proofs and are not part of the source's interface.

## Findings

| source | as written | input that shows it | evidently intended | confidence | as-written member | corrected member |
|---|---|---|---|---|---|---|
| wirecaml/transformation/transform.py:89 | `vulnerable_line` starts as the integer 0 and keeps that value when no emitted row is vulnerable. Without `mark_whole_path`, `vulnerable_line[0]` then raises a TypeError | a file with at least one emitted row, no flaw line in any closure, and `mark_whole_path` False | rows are left unlabelled when no vulnerable line was found | not executed | Transform.LabelAsWritten, Transform.LabelAsWrittenFails | Transform.Label, Transform.LabelRight |
