/**
 * The static `is_tainted` of my_php_listener.py: the initial status a new
 * node gets from the shape of the expression it assigns.
 */
module TaintHeuristic {
  import opened Wrappers
  import opened PhpAst
  import opened CodeNodes

  /** `type(expr) in [float, bool, int, str]`: a bare Python scalar. */
  predicate IsPrimitive(e: Node) {
    e.kind.Lit?
  }

  /** `hasattr(expr, 'name')`, with the name. */
  predicate NamedAs(e: Node, name: string) {
    match e.kind
    case Constant(n) => n == name
    case Variable(n) => n == name
    case ObjectProperty(_, n) => n == name
    case Function(n, _, _) => n == name
    case FunctionCall(n, _) => n == name
    case MethodCall(_, n, _) => n == name
    case Other(_, Some(n)) => n == name
    case _ => false
  }

  /** The five shapes whose value cannot carry user input, in the source's order. */
  predicate KnownPrimitive(e: Node) {
    IsPrimitive(e) ||
    (e.kind.Cast? && e.kind.typ in {"int", "float", "double", "bool", "long"}) ||
    (e.kind.BinaryOp? && e.kind.op != "." && (IsPrimitive(e.kind.left) || IsPrimitive(e.kind.right))) ||
    (e.kind.TernaryOp? && (IsPrimitive(e.kind.ifFalse) || IsPrimitive(e.kind.ifTrue))) ||
    NamedAs(e, "floatval") || NamedAs(e, "intval")
  }

  /** The static classifier: NOT_TAINTED for a known primitive, MAYBE_TAINTED otherwise. */
  function StaticTaint(e: Node): (t: Taint)
    ensures t == NotTainted || t == MaybeTainted
    ensures t == NotTainted <==> KnownPrimitive(e)
  {
    if IsPrimitive(e) then NotTainted
    else if e.kind.Cast? && e.kind.typ in {"int", "float", "double", "bool", "long"} then NotTainted
    else if e.kind.BinaryOp? && e.kind.op != "." && (IsPrimitive(e.kind.left) || IsPrimitive(e.kind.right)) then NotTainted
    else if e.kind.TernaryOp? && (IsPrimitive(e.kind.ifFalse) || IsPrimitive(e.kind.ifTrue)) then NotTainted
    else if NamedAs(e, "floatval") || NamedAs(e, "intval") then NotTainted
    else MaybeTainted
  }

  /** `$_GET["foobar"]`. */
  function GetParam(id: nat): Node {
    Node(id, 1, ArrayOffset(Node(id + 1, 1, Variable("$_GET")), Some(Node(id + 2, 1, Lit(StrVal("foobar"))))))
  }

  /**
   * The classifications the listener tests expect: a request parameter is
   * MAYBE_TAINTED, its float cast, `+ 0` arithmetic and `floatval`/`intval`
   * wrappers are NOT_TAINTED, and a `.` concatenation with a literal is not
   * known to be primitive. The name test covers every class with a `name`:
   * a static call `Foo::intval(...)` is NOT_TAINTED too, while a class
   * without a `name` that the rendering leaves unrendered stays MAYBE_TAINTED.
   */
  lemma StaticTaintExamples()
    ensures StaticTaint(GetParam(0)) == MaybeTainted
    ensures StaticTaint(Node(5, 1, Cast("float", GetParam(0)))) == NotTainted
    ensures StaticTaint(Node(5, 1, BinaryOp("+", GetParam(0), Node(6, 1, Lit(IntVal(0)))))) == NotTainted
    ensures StaticTaint(Node(5, 1, FunctionCall("floatval", [GetParam(0)]))) == NotTainted
    ensures StaticTaint(Node(5, 1, FunctionCall("intval", [GetParam(0)]))) == NotTainted
    ensures StaticTaint(Node(5, 1, BinaryOp(".", Node(6, 1, Variable("$tainted")), Node(7, 1, Lit(StrVal("foobar")))))) == MaybeTainted
    ensures StaticTaint(Node(5, 1, Lit(IntVal(3)))) == NotTainted
    ensures StaticTaint(Node(5, 1, Other("StaticMethodCall(Foo, intval)", Some("intval")))) == NotTainted
    ensures StaticTaint(Node(5, 1, Other("StaticMethodCall(Foo, bar)", Some("bar")))) == MaybeTainted
    ensures StaticTaint(Node(5, 1, Other("Closure()", None))) == MaybeTainted
  {
  }
}
