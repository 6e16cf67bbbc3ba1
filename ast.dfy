/**
 * The phply syntax tree the listener and the traverser work on, and
 * `unparse_node` (my_php_listener.py) as a pure rendering.
 *
 * Every tree node carries `id`, which stands for the Python object's
 * identity (the listener's `traversed` list is searched with `is`), and the
 * line number phply tracked for it.
 */
module PhpAst {
  import opened Wrappers

  /** Python scalars that phply leaves in the tree. */
  datatype Scalar = IntVal(i: int) | StrVal(s: string) | FloatVal(repr: string) | BoolVal(b: bool)

  datatype Node = Node(id: nat, line: nat, kind: Kind)

  /** `ArrayElement(key, value)`; `key` is None when the element has no key. */
  datatype Elem = Elem(id: nat, key: Option<Node>, value: Node)

  datatype ElseIf = ElseIf(cond: Node, body: Node)

  /**
   * The node classes the core handles. `desc` is `str(node)` of a class that
   * `unparse_node` does not render itself, and `named` is that node's `name`
   * attribute when its class has one (StaticMethodCall, New, StaticProperty,
   * ClassConstant and the like), None otherwise. ArrayOffset's index, Return's
   * value and Else are None where PHP leaves them out; `keyVar` and
   * `valVar` are the `$`-prefixed names of a foreach's variables, and
   * `params` the `$`-prefixed names of a function's formal parameters.
   * Call arguments are the nodes inside phply's Parameter wrappers.
   */
  datatype Kind =
    | Lit(value: Scalar)
    | InlineHTML(data: string)
    | Constant(name: string)
    | Variable(name: string)
    | Echo(nodes: seq<Node>)
    | Include(expr: Node)
    | Block(nodes: seq<Node>)
    | ArrayOffset(base: Node, index: Option<Node>)
    | ObjectProperty(obj: Node, name: string)
    | Array(elems: seq<Elem>)
    | Assignment(target: Node, expr: Node)
    | AssignOp(op: string, left: Node, right: Node, desc: string)
    | UnaryOp(op: string, expr: Node)
    | BinaryOp(op: string, left: Node, right: Node)
    | TernaryOp(cond: Node, ifTrue: Node, ifFalse: Node)
    | IsSet(nodes: seq<Node>)
    | Empty(expr: Node)
    | Silence(expr: Node)
    | Cast(typ: string, expr: Node)
    | If(cond: Node, body: Node, elseifs: seq<ElseIf>, else_: Option<Node>)
    | While(cond: Node, body: Node)
    | DoWhile(body: Node, cond: Node, desc: string)
    | For(body: Node, desc: string)
    | Foreach(expr: Node, keyVar: Option<string>, valVar: string, body: Node)
    | Function(name: string, params: seq<string>, stmts: seq<Node>)
    | Return(result: Option<Node>)
    | FunctionCall(name: string, args: seq<Node>)
    | MethodCall(obj: Node, name: string, args: seq<Node>)
    | Other(desc: string, named: Option<string>)

  /**
   * What rendering one node produces: the text, the ids of the nodes passed
   * to `unparse_node` in call order (each is appended to `traversed`), and
   * the names added to `stmt_vars`, `stmt_funcs` and `stmt_consts`.
   */
  datatype Rendering = Rendering(text: string, touched: seq<nat>, vars: set<string>, funcs: set<string>, consts: set<string>)

  /** The rendering of a bare text that touches nothing. */
  function Plain(text: string): Rendering {
    Rendering(text, [], {}, {}, {})
  }

  /** Two renderings one after the other, their texts joined by `sep`. */
  function Seq2(a: Rendering, sep: string, b: Rendering): Rendering {
    Rendering(a.text + sep + b.text, a.touched + b.touched, a.vars + b.vars, a.funcs + b.funcs, a.consts + b.consts)
  }

  /** `r` wrapped as `pre + r.text + post`, with `r`'s effects. */
  function Wrap(pre: string, r: Rendering, post: string): Rendering {
    r.(text := pre + r.text + post)
  }

  /** `r` with node `id` recorded before everything `r` touched. */
  function Touch(id: nat, r: Rendering): Rendering {
    r.(touched := [id] + r.touched)
  }

  /** Python's `s[1:]`. */
  function DropFirst(s: string): string {
    if |s| == 0 then "" else s[1..]
  }

  /** `sep.join(parts)`. */
  function Join(parts: seq<string>, sep: string): string {
    if |parts| == 0 then "" else if |parts| == 1 then parts[0] else parts[0] + sep + Join(parts[1..], sep)
  }

  function DigitChar(d: nat): (c: char)
    requires d < 10
    ensures '0' <= c <= '9' && c as int - '0' as int == d
  {
    ('0' as int + d) as char
  }

  /** The number a string of decimal digits denotes. */
  function DigitsValue(s: string): nat
    requires forall i :: 0 <= i < |s| ==> '0' <= s[i] <= '9'
  {
    if s == [] then 0 else DigitsValue(s[..|s| - 1]) * 10 + (s[|s| - 1] as int - '0' as int)
  }

  /**
   * The decimal digits of `n` (Python's `str`/`%d` on a non-negative int):
   * they denote `n`, and there is no leading zero.
   */
  function NatToString(n: nat): (s: string)
    ensures |s| >= 1 && forall i :: 0 <= i < |s| ==> '0' <= s[i] <= '9'
    ensures DigitsValue(s) == n
    ensures |s| > 1 ==> s[0] != '0'
  {
    if n < 10 then [DigitChar(n)]
    else
      var prefix := NatToString(n / 10);
      assert (prefix + [DigitChar(n % 10)])[..|prefix|] == prefix;
      prefix + [DigitChar(n % 10)]
  }

  /** Distinct numbers have distinct renderings. */
  lemma NatToStringInjective(a: nat, b: nat)
    requires NatToString(a) == NatToString(b)
    ensures a == b
  {
  }

  function IntToString(i: int): string {
    if i < 0 then "-" + NatToString(-i) else NatToString(i)
  }

  /** `repr` of a scalar; strings are quoted as `'s'` without escaping. */
  function Repr(v: Scalar): string {
    match v
    case IntVal(i) => IntToString(i)
    case StrVal(s) => "'" + s + "'"
    case FloatVal(r) => r
    case BoolVal(b) => if b then "True" else "False"
  }

  /** The text `unparse_node` gives a node class it does not render: `'XXX(%r)' % str(node)`. */
  function Unrendered(desc: string): string {
    "XXX('" + desc + "')"
  }

  /** `unparse_node(None)`: None is no parse node, so recording it can never cause a skip. */
  const NoneRendering: Rendering := Plain(Unrendered("None"))

  /** Python truthiness of an array key (`if node.key:`): zero and empty scalars are false. */
  predicate KeyTruthy(k: Node) {
    match k.kind
    case Lit(v) =>
      (match v
       case IntVal(i) => i != 0
       case StrVal(s) => s != ""
       case FloatVal(r) => r != "0.0" && r != "-0.0"
       case BoolVal(b) => b)
    case _ => true
  }

  /** Renders a child that may be None. */
  function UnparseOpt(o: Option<Node>): Rendering
    decreases o, 1
  {
    match o
    case None => NoneRendering
    case Some(n) => Unparse(n)
  }

  /** The effects of rendering a list, texts joined by `sep`. */
  function UnparseList(ns: seq<Node>, sep: string): Rendering
    decreases ns, 0
  {
    if |ns| == 0 then Plain("")
    else if |ns| == 1 then Unparse(ns[0])
    else Seq2(Unparse(ns[0]), sep, UnparseList(ns[1..], sep))
  }

  /** IsSet's `(x is defined)` tests, joined by " and ". */
  function UnparseIsSetTests(ns: seq<Node>): Rendering
    decreases ns, 0
  {
    if |ns| == 0 then Plain("")
    else if |ns| == 1 then Wrap("(", Unparse(ns[0]), " is defined)")
    else Seq2(Wrap("(", Unparse(ns[0]), " is defined)"), " and ", UnparseIsSetTests(ns[1..]))
  }

  function UnparseElem(e: Elem): Rendering
    decreases e, 2
  {
    Touch(e.id,
      if e.key.Some? && KeyTruthy(e.key.value) then Seq2(Unparse(e.key.value), ": ", Unparse(e.value))
      else Unparse(e.value))
  }

  function UnparseElems(es: seq<Elem>): Rendering
    decreases es, 0
  {
    if |es| == 0 then Plain("")
    else if |es| == 1 then UnparseElem(es[0])
    else Seq2(UnparseElem(es[0]), ", ", UnparseElems(es[1..]))
  }

  /** The `{% elif c -%}body` parts of an If. */
  function UnparseElseIfs(eis: seq<ElseIf>): Rendering
    decreases eis, 0
  {
    if |eis| == 0 then Plain("")
    else
      Seq2(UnparseElseIf(eis[0]), "", UnparseElseIfs(eis[1..]))
  }

  function UnparseElseIf(ei: ElseIf): Rendering
    decreases ei, 2
  {
    Seq2(Wrap("{% elif ", Unparse(ei.cond), " -%}"), "", Unparse(ei.body))
  }

  /** The rendering of a foreach-shaped loop with loop variables `v`. */
  function ForTemplate(v: string, expr: Rendering, body: Rendering): Rendering {
    Seq2(Wrap("{% for " + v + " in ", expr, " -%}"), "", Wrap("", body, "{% endfor -%}"))
  }

  /**
   * unparse_node. The node itself is recorded first, then every node the
   * rendering visits, in the order the source evaluates the calls.
   */
  function Unparse(n: Node): Rendering
    decreases n, 0
  {
    Touch(n.id,
      match n.kind
      case Lit(v) => Plain(Repr(v))
      case InlineHTML(data) => Plain(data)
      case Constant(name) => Rendering(name, [], {}, {}, {name})
      case Variable(name) => Rendering(name, [], {name}, {}, {})
      case Echo(ns) => Wrap("{{ ", UnparseList(ns, ""), " }}")
      case Include(e) => Wrap("{% include ", Unparse(e), " -%}")
      case Block(ns) => UnparseList(ns, "")
      case ArrayOffset(b, i) => Wrap("", Seq2(Unparse(b), "[", UnparseOpt(i)), "]")
      case ObjectProperty(o, name) => Wrap("", Unparse(o), "." + name)
      case Array(es) =>
        if |es| > 0 && es[0].key.Some? then Wrap("{", UnparseElems(es), "}")
        else Wrap("[", UnparseElems(es), "]")
      case Assignment(t, e) =>
        if t.kind.ArrayOffset? && t.kind.index.None? then
          Wrap("{% do ", Seq2(Unparse(t.kind.base), ".append(", Unparse(e)), ") -%}")
        else Seq2(Unparse(t), " = ", Unparse(e))
      case AssignOp(_, _, _, desc) => Plain(Unrendered(desc))
      case UnaryOp(op, e) => Wrap(op + " ", Unparse(e), "")
      case BinaryOp(op, l, r) => Seq2(Unparse(l), " " + op + " ", Unparse(r))
      case TernaryOp(c, t, f) => Seq2(Seq2(Unparse(c), " ? ", Unparse(t)), " : ", Unparse(f))
      case IsSet(ns) =>
        if |ns| == 1 then Wrap("(", Unparse(ns[0]), " is defined)")
        else Wrap("(", UnparseIsSetTests(ns), ")")
      case Empty(e) => Wrap("(not ", Unparse(e), ")")
      case Silence(e) => Unparse(e)
      case Cast(typ, e) =>
        Wrap("", Unparse(e), if typ in {"int", "float", "string"} then "|" + typ else "")
      case If(c, body, eis, els) =>
        var b := Seq2(Unparse(body), "", UnparseElseIfs(eis));
        var b2 := if els.Some? then Seq2(b, "{% else -%}", Unparse(els.value)) else b;
        var cond := Unparse(c);
        Rendering("{% if " + cond.text + " -%}" + b2.text + "{% endif -%}",
                  b2.touched + cond.touched, b2.vars + cond.vars, b2.funcs + cond.funcs, b2.consts + cond.consts)
      case While(c, body) => ForTemplate("XXX", Unparse(c), Unparse(body))
      case DoWhile(_, _, desc) => Plain(Unrendered(desc))
      case For(_, desc) => Plain(Unrendered(desc))
      case Foreach(e, kv, vv, body) =>
        var v := if kv.Some? then DropFirst(kv.value) + ", " + DropFirst(vv) else DropFirst(vv);
        ForTemplate(v, Unparse(e), Unparse(body))
      case Function(name, params, _) => Plain(name + "(" + Join(ParamNames(params), ", ") + ")")
      case Return(v) => Wrap("return ", UnparseOpt(v), "")
      case FunctionCall(name, args) =>
        var ps := UnparseList(args, ", ");
        Rendering(name + "(" + ps.text + ")", ps.touched, ps.vars, ps.funcs + {name}, ps.consts)
      case MethodCall(o, name, args) =>
        var ps := UnparseList(args, ", ");
        var obj := Unparse(o);
        Rendering(obj.text + "." + name + "(" + ps.text + ")",
                  ps.touched + obj.touched, ps.vars + obj.vars, ps.funcs + obj.funcs, ps.consts + obj.consts)
      case Other(desc, _) => Plain(Unrendered(desc)))
  }

  /* ---- what a rendering can record ---- */

  /** The nodes an option holds. */
  function OptNodes(o: Option<Node>): (r: seq<Node>)
    ensures forall k :: 0 <= k < |r| ==> r[k] < o
  {
    if o.Some? then [o.value] else []
  }

  /** The keys and values of array elements. */
  function ElemNodes(es: seq<Elem>): (r: seq<Node>)
    ensures forall m :: m in r ==> exists e :: e in es && (m == e.value || e.key == Some(m))
  {
    if |es| == 0 then []
    else OptNodes(es[0].key) + [es[0].value] + ElemNodes(es[1..])
  }

  /** The conditions and bodies of elseif parts. */
  function ElseIfNodes(eis: seq<ElseIf>): (r: seq<Node>)
    ensures forall m :: m in r ==> exists ei :: ei in eis && (m == ei.cond || m == ei.body)
  {
    if |eis| == 0 then [] else [eis[0].cond, eis[0].body] + ElseIfNodes(eis[1..])
  }

  /** The direct subtrees of a node, for every kind. */
  function Children(n: Node): (r: seq<Node>)
    ensures forall k :: 0 <= k < |r| ==> r[k] < n
  {
    match n.kind
    case Lit(_) => []
    case InlineHTML(_) => []
    case Constant(_) => []
    case Variable(_) => []
    case Echo(ns) => ns
    case Include(e) => [e]
    case Block(ns) => ns
    case ArrayOffset(b, i) => [b] + OptNodes(i)
    case ObjectProperty(o, _) => [o]
    case Array(es) =>
      var r := ElemNodes(es);
      assert forall k :: 0 <= k < |r| ==> r[k] < n by {
        forall k | 0 <= k < |r| ensures r[k] < n {
          var e :| e in es && (r[k] == e.value || e.key == Some(r[k]));
          assert e < n;
          if r[k] != e.value {
            assert e.key.value == r[k];
          }
        }
      }
      r
    case Assignment(t, e) => [t, e]
    case AssignOp(_, l, r, _) => [l, r]
    case UnaryOp(_, e) => [e]
    case BinaryOp(_, l, r) => [l, r]
    case TernaryOp(c, t, f) => [c, t, f]
    case IsSet(ns) => ns
    case Empty(e) => [e]
    case Silence(e) => [e]
    case Cast(_, e) => [e]
    case If(c, body, eis, els) =>
      var r := [c, body] + ElseIfNodes(eis) + OptNodes(els);
      assert forall k :: 0 <= k < |r| ==> r[k] < n by {
        forall k | 0 <= k < |r| ensures r[k] < n {
          if 2 <= k < 2 + |ElseIfNodes(eis)| {
            assert r[k] in ElseIfNodes(eis);
            var ei :| ei in eis && (r[k] == ei.cond || r[k] == ei.body);
            assert ei < n;
          }
        }
      }
      r
    case While(c, body) => [c, body]
    case DoWhile(body, c, _) => [body, c]
    case For(body, _) => [body]
    case Foreach(e, _, _, body) => [e, body]
    case Function(_, _, ss) => ss
    case Return(v) => OptNodes(v)
    case FunctionCall(_, args) => args
    case MethodCall(o, _, args) => [o] + args
    case Other(_, _) => []
  }

  /** `m` is `n` or a node somewhere below it. */
  ghost predicate Occurs(n: Node, m: Node)
    decreases n
  {
    m == n || exists k :: 0 <= k < |Children(n)| && Occurs(Children(n)[k], m)
  }

  /** `i` is the id of `n`, of one of its array elements, or of something below it. */
  ghost predicate HasId(n: Node, i: nat)
    decreases n
  {
    i == n.id || (n.kind.Array? && exists e :: e in n.kind.elems && e.id == i) ||
    exists k :: 0 <= k < |Children(n)| && HasId(Children(n)[k], i)
  }

  /**
   * Everything `r` records belongs to the tree `n`: each id it touches is
   * that of a node or array element in `n`, and each variable, function and
   * constant name it collects is that of a Variable, FunctionCall or
   * Constant node occurring in `n`.
   */
  ghost predicate Within(n: Node, r: Rendering) {
    (forall i :: i in r.touched ==> HasId(n, i)) &&
    (forall v :: v in r.vars ==> exists m :: Occurs(n, m) && m.kind == Variable(v)) &&
    (forall f :: f in r.funcs ==> exists m :: Occurs(n, m) && m.kind.FunctionCall? && m.kind.name == f) &&
    (forall c :: c in r.consts ==> exists m :: Occurs(n, m) && m.kind == Constant(c))
  }

  /** What belongs to a child belongs to its parent. */
  lemma {:induction false} WithinParent(n: Node, c: Node, r: Rendering)
    requires c in Children(n) && Within(c, r)
    ensures Within(n, r)
  {
    var k :| 0 <= k < |Children(n)| && Children(n)[k] == c;
    forall m | Occurs(c, m) ensures Occurs(n, m) {
      assert Occurs(Children(n)[k], m);
    }
    forall i | HasId(c, i) ensures HasId(n, i) {
      assert HasId(Children(n)[k], i);
    }
  }

  lemma WithinSeq2(n: Node, a: Rendering, sep: string, b: Rendering)
    requires Within(n, a) && Within(n, b)
    ensures Within(n, Seq2(a, sep, b))
  {
  }

  /** Two renderings' effects together, under any text. */
  lemma WithinUnion(n: Node, a: Rendering, b: Rendering, text: string)
    requires Within(n, a) && Within(n, b)
    ensures Within(n, Rendering(text, a.touched + b.touched, a.vars + b.vars, a.funcs + b.funcs, a.consts + b.consts))
  {
  }

  lemma WithinWrap(n: Node, pre: string, r: Rendering, post: string)
    requires Within(n, r)
    ensures Within(n, Wrap(pre, r, post))
  {
  }

  lemma WithinPlain(n: Node, text: string)
    ensures Within(n, Plain(text))
  {
  }

  lemma WithinTouch(n: Node, r: Rendering)
    requires Within(n, r)
    ensures Within(n, Touch(n.id, r))
  {
    assert HasId(n, n.id);
  }

  /** A variable's, a call's and a constant's own name belong to it. */
  lemma WithinOwnName(n: Node, r: Rendering)
    requires Within(n, r)
    ensures n.kind.Variable? ==> Within(n, r.(vars := r.vars + {n.kind.name}))
    ensures n.kind.FunctionCall? ==> Within(n, r.(funcs := r.funcs + {n.kind.name}))
    ensures n.kind.Constant? ==> Within(n, r.(consts := r.consts + {n.kind.name}))
  {
    assert Occurs(n, n);
  }

  /** The rendering of a child of `n` belongs to `n`. */
  lemma {:induction false} WithinChild(n: Node, c: Node)
    requires c in Children(n)
    ensures Within(n, Unparse(c))
    decreases n, 1
  {
    UnparseWithin(c);
    WithinParent(n, c, Unparse(c));
  }

  lemma {:induction false} WithinList(n: Node, ns: seq<Node>, sep: string)
    requires forall k :: 0 <= k < |ns| ==> ns[k] in Children(n)
    ensures Within(n, UnparseList(ns, sep))
    decreases n, 2, |ns|
  {
    if |ns| == 1 {
      WithinChild(n, ns[0]);
    } else if |ns| > 1 {
      WithinChild(n, ns[0]);
      WithinList(n, ns[1..], sep);
    }
  }

  lemma {:induction false} WithinIsSet(n: Node, ns: seq<Node>)
    requires forall k :: 0 <= k < |ns| ==> ns[k] in Children(n)
    ensures Within(n, UnparseIsSetTests(ns))
    decreases n, 2, |ns|
  {
    if |ns| == 1 {
      WithinChild(n, ns[0]);
    } else if |ns| > 1 {
      WithinChild(n, ns[0]);
      WithinIsSet(n, ns[1..]);
    }
  }

  lemma {:induction false} WithinOpt(n: Node, o: Option<Node>)
    requires o.Some? ==> o.value in Children(n)
    ensures Within(n, UnparseOpt(o))
    decreases n, 2
  {
    if o.Some? {
      WithinChild(n, o.value);
    }
  }

  /** An array element's own id, recorded before its rendering, belongs to the array. */
  lemma WithinElemId(n: Node, e: Elem, r: Rendering)
    requires n.kind.Array? && e in n.kind.elems && Within(n, r)
    ensures Within(n, Touch(e.id, r))
  {
    assert HasId(n, e.id);
  }

  lemma {:induction false} WithinElems(n: Node, es: seq<Elem>)
    requires n.kind.Array? && forall e :: e in es ==> e in n.kind.elems
    requires forall m :: m in ElemNodes(es) ==> m in Children(n)
    ensures Within(n, UnparseElems(es))
    decreases n, 2, |es|
  {
    hide Within, Unparse, Occurs, HasId;
    if |es| == 0 {
      WithinPlain(n, "");
    } else {
      var e := es[0];
      assert ElemNodes(es) == OptNodes(e.key) + [e.value] + ElemNodes(es[1..]);
      WithinChild(n, e.value);
      var body: Rendering;
      if e.key.Some? && KeyTruthy(e.key.value) {
        WithinChild(n, e.key.value);
        WithinSeq2(n, Unparse(e.key.value), ": ", Unparse(e.value));
        body := Seq2(Unparse(e.key.value), ": ", Unparse(e.value));
      } else {
        body := Unparse(e.value);
      }
      WithinElemId(n, e, body);
      assert UnparseElem(e) == Touch(e.id, body);
      if |es| > 1 {
        WithinElems(n, es[1..]);
        WithinSeq2(n, UnparseElem(e), ", ", UnparseElems(es[1..]));
      }
    }
  }

  lemma {:induction false} WithinElseIfs(n: Node, eis: seq<ElseIf>)
    requires forall m :: m in ElseIfNodes(eis) ==> m in Children(n)
    ensures Within(n, UnparseElseIfs(eis))
    decreases n, 2, |eis|
  {
    if |eis| >= 1 {
      assert ElseIfNodes(eis) == [eis[0].cond, eis[0].body] + ElseIfNodes(eis[1..]);
      WithinChild(n, eis[0].cond);
      WithinChild(n, eis[0].body);
      WithinElseIfs(n, eis[1..]);
    }
  }

  /** The rendering of a literal, inline HTML or an unrendered node belongs to it. */
  lemma {:induction false} WithinText(n: Node)
    requires n.kind.Lit? || n.kind.InlineHTML? || n.kind.Other?
    ensures Within(n, Unparse(n))
    decreases n, 3
  {
    hide Within, Occurs, HasId;
    var inner: Rendering;
    match n.kind {
      case Lit(v) =>
        inner := Plain(Repr(v));
        WithinPlain(n, inner.text);
      case InlineHTML(data) =>
        inner := Plain(data);
        WithinPlain(n, inner.text);
      case Other(desc, _) =>
        inner := Plain(Unrendered(desc));
        WithinPlain(n, inner.text);
      case _ => assert false;
    }
    assert Unparse(n) == Touch(n.id, inner);
    WithinTouch(n, inner);
  }

  /** The rendering of a constant or a variable belongs to it. */
  lemma {:induction false} WithinNamed(n: Node)
    requires n.kind.Constant? || n.kind.Variable?
    ensures Within(n, Unparse(n))
    decreases n, 3
  {
    hide Within, Occurs, HasId;
    var inner: Rendering;
    match n.kind {
      case Constant(name) =>
        WithinPlain(n, name);
        WithinOwnName(n, Plain(name));
        inner := Rendering(name, [], {}, {}, {name});
        assert inner == Plain(name).(consts := Plain(name).consts + {name});
      case Variable(name) =>
        WithinPlain(n, name);
        WithinOwnName(n, Plain(name));
        inner := Rendering(name, [], {name}, {}, {});
        assert inner == Plain(name).(vars := Plain(name).vars + {name});
      case _ => assert false;
    }
    assert Unparse(n) == Touch(n.id, inner);
    WithinTouch(n, inner);
  }

  /** The rendering of a node shown as a placeholder text belongs to it. */
  lemma {:induction false} WithinPlaceholder(n: Node)
    requires n.kind.AssignOp? || n.kind.DoWhile? || n.kind.For? || n.kind.Function?
    ensures Within(n, Unparse(n))
    decreases n, 3
  {
    hide Within, Occurs, HasId, Join, ParamNames, Unrendered;
    var inner: Rendering;
    match n.kind {
      case AssignOp(_, _, _, desc) =>
        inner := Plain(Unrendered(desc));
        WithinPlain(n, inner.text);
      case DoWhile(_, _, desc) =>
        inner := Plain(Unrendered(desc));
        WithinPlain(n, inner.text);
      case For(_, desc) =>
        inner := Plain(Unrendered(desc));
        WithinPlain(n, inner.text);
      case Function(name, params, _) =>
        inner := Plain(name + "(" + Join(ParamNames(params), ", ") + ")");
        WithinPlain(n, inner.text);
      case _ => assert false;
    }
    assert Unparse(n) == Touch(n.id, inner);
    WithinTouch(n, inner);
  }

  /** The rendering of a node rendered around one expression belongs to it. */
  lemma {:induction false} WithinUnary(n: Node)
    requires n.kind.Include? || n.kind.ObjectProperty? || n.kind.UnaryOp?
    ensures Within(n, Unparse(n))
    decreases n, 3
  {
    hide Within, Occurs, HasId;
    var inner: Rendering;
    match n.kind {
      case Include(e) =>
        WithinChild(n, e);
        inner := Wrap("{% include ", Unparse(e), " -%}");
        WithinWrap(n, "{% include ", Unparse(e), " -%}");
      case ObjectProperty(o, name) =>
        WithinChild(n, o);
        inner := Wrap("", Unparse(o), "." + name);
        WithinWrap(n, "", Unparse(o), "." + name);
      case UnaryOp(op, e) =>
        WithinChild(n, e);
        inner := Wrap(op + " ", Unparse(e), "");
        WithinWrap(n, op + " ", Unparse(e), "");
      case _ => assert false;
    }
    assert Unparse(n) == Touch(n.id, inner);
    WithinTouch(n, inner);
  }

  /** The rendering of a node rendered after a keyword or a prefix belongs to it. */
  lemma {:induction false} WithinPrefix(n: Node)
    requires n.kind.Empty? || n.kind.Silence? || n.kind.Cast? || n.kind.Return?
    ensures Within(n, Unparse(n))
    decreases n, 3
  {
    hide Within, Occurs, HasId;
    var inner: Rendering;
    match n.kind {
      case Empty(e) =>
        WithinChild(n, e);
        inner := Wrap("(not ", Unparse(e), ")");
        WithinWrap(n, "(not ", Unparse(e), ")");
      case Silence(e) =>
        WithinChild(n, e);
        inner := Unparse(e);
      case Cast(typ, e) =>
        WithinChild(n, e);
        var post := if typ in {"int", "float", "string"} then "|" + typ else "";
        inner := Wrap("", Unparse(e), post);
        WithinWrap(n, "", Unparse(e), post);
      case Return(v) =>
        WithinOpt(n, v);
        inner := Wrap("return ", UnparseOpt(v), "");
        WithinWrap(n, "return ", UnparseOpt(v), "");
      case _ => assert false;
    }
    assert Unparse(n) == Touch(n.id, inner);
    WithinTouch(n, inner);
  }

  /** The rendering of a node rendered from two children belongs to it. */
  lemma {:induction false} WithinBinary(n: Node)
    requires n.kind.ArrayOffset? || n.kind.Assignment?
    ensures Within(n, Unparse(n))
    decreases n, 3
  {
    hide Within, Occurs, HasId;
    var inner: Rendering;
    match n.kind {
      case ArrayOffset(b, i) =>
        WithinChild(n, b);
        WithinOpt(n, i);
        WithinSeq2(n, Unparse(b), "[", UnparseOpt(i));
        inner := Wrap("", Seq2(Unparse(b), "[", UnparseOpt(i)), "]");
        WithinWrap(n, "", Seq2(Unparse(b), "[", UnparseOpt(i)), "]");
      case Assignment(t, e) =>
        WithinChild(n, e);
        if t.kind.ArrayOffset? && t.kind.index.None? {
          WithinChild(t, t.kind.base);
          WithinParent(n, t, Unparse(t.kind.base));
          WithinSeq2(n, Unparse(t.kind.base), ".append(", Unparse(e));
          inner := Wrap("{% do ", Seq2(Unparse(t.kind.base), ".append(", Unparse(e)), ") -%}");
          WithinWrap(n, "{% do ", Seq2(Unparse(t.kind.base), ".append(", Unparse(e)), ") -%}");
        } else {
          WithinChild(n, t);
          inner := Seq2(Unparse(t), " = ", Unparse(e));
          WithinSeq2(n, Unparse(t), " = ", Unparse(e));
        }
      case _ => assert false;
    }
    assert Unparse(n) == Touch(n.id, inner);
    WithinTouch(n, inner);
  }

  /** The rendering of an operator node belongs to it. */
  lemma {:induction false} WithinOperator(n: Node)
    requires n.kind.BinaryOp? || n.kind.TernaryOp?
    ensures Within(n, Unparse(n))
    decreases n, 3
  {
    hide Within, Occurs, HasId;
    var inner: Rendering;
    match n.kind {
      case BinaryOp(op, l, r) =>
        WithinChild(n, l);
        WithinChild(n, r);
        inner := Seq2(Unparse(l), " " + op + " ", Unparse(r));
        WithinSeq2(n, Unparse(l), " " + op + " ", Unparse(r));
      case TernaryOp(c, t, f) =>
        WithinChild(n, c);
        WithinChild(n, t);
        WithinChild(n, f);
        WithinSeq2(n, Unparse(c), " ? ", Unparse(t));
        inner := Seq2(Seq2(Unparse(c), " ? ", Unparse(t)), " : ", Unparse(f));
        WithinSeq2(n, Seq2(Unparse(c), " ? ", Unparse(t)), " : ", Unparse(f));
      case _ => assert false;
    }
    assert Unparse(n) == Touch(n.id, inner);
    WithinTouch(n, inner);
  }

  /** The rendering of an echo, a block or an isset belongs to it. */
  lemma {:induction false} WithinStatements(n: Node)
    requires n.kind.Echo? || n.kind.Block? || n.kind.IsSet?
    ensures Within(n, Unparse(n))
    decreases n, 3
  {
    hide Within, Occurs, HasId;
    var inner: Rendering;
    match n.kind {
      case Echo(ns) =>
        WithinList(n, ns, "");
        inner := Wrap("{{ ", UnparseList(ns, ""), " }}");
        WithinWrap(n, "{{ ", UnparseList(ns, ""), " }}");
      case Block(ns) =>
        WithinList(n, ns, "");
        inner := UnparseList(ns, "");
      case IsSet(ns) =>
        if |ns| == 1 {
          WithinChild(n, ns[0]);
          inner := Wrap("(", Unparse(ns[0]), " is defined)");
          WithinWrap(n, "(", Unparse(ns[0]), " is defined)");
        } else {
          WithinIsSet(n, ns);
          inner := Wrap("(", UnparseIsSetTests(ns), ")");
          WithinWrap(n, "(", UnparseIsSetTests(ns), ")");
        }
      case _ => assert false;
    }
    assert Unparse(n) == Touch(n.id, inner);
    WithinTouch(n, inner);
  }

  /** The rendering of an array literal belongs to it. */
  lemma {:induction false} WithinArray(n: Node)
    requires n.kind.Array?
    ensures Within(n, Unparse(n))
    decreases n, 3
  {
    hide Within, Occurs, HasId;
    var inner: Rendering;
    match n.kind {
      case Array(es) =>
        WithinElems(n, es);
        WithinWrap(n, "{", UnparseElems(es), "}");
        WithinWrap(n, "[", UnparseElems(es), "]");
        inner := if |es| > 0 && es[0].key.Some? then Wrap("{", UnparseElems(es), "}")
                 else Wrap("[", UnparseElems(es), "]");
      case _ => assert false;
    }
    assert Unparse(n) == Touch(n.id, inner);
    WithinTouch(n, inner);
  }

  /** The rendering of a function or method call belongs to it. */
  lemma {:induction false} WithinCall(n: Node)
    requires n.kind.FunctionCall? || n.kind.MethodCall?
    ensures Within(n, Unparse(n))
    decreases n, 3
  {
    hide Within, Occurs, HasId;
    var inner: Rendering;
    match n.kind {
      case FunctionCall(name, args) =>
        WithinList(n, args, ", ");
        var ps := UnparseList(args, ", ");
        WithinWrap(n, name + "(", ps, ")");
        WithinOwnName(n, Wrap(name + "(", ps, ")"));
        inner := Rendering(name + "(" + ps.text + ")", ps.touched, ps.vars, ps.funcs + {name}, ps.consts);
        assert inner == Wrap(name + "(", ps, ")").(funcs := ps.funcs + {name});
      case MethodCall(o, name, args) =>
        WithinChild(n, o);
        WithinList(n, args, ", ");
        var ps := UnparseList(args, ", ");
        var obj := Unparse(o);
        var text := obj.text + "." + name + "(" + ps.text + ")";
        inner := Rendering(text, ps.touched + obj.touched, ps.vars + obj.vars, ps.funcs + obj.funcs, ps.consts + obj.consts);
        WithinUnion(n, ps, obj, text);
      case _ => assert false;
    }
    assert Unparse(n) == Touch(n.id, inner);
    WithinTouch(n, inner);
  }

  /** The rendering of an if statement belongs to it. */
  lemma {:induction false} WithinIf(n: Node)
    requires n.kind.If?
    ensures Within(n, Unparse(n))
    decreases n, 3
  {
    hide Within, Occurs, HasId;
    var inner: Rendering;
    match n.kind {
      case If(c, body, eis, els) =>
        WithinChild(n, c);
        WithinChild(n, body);
        WithinElseIfs(n, eis);
        WithinOpt(n, els);
        var b := Seq2(Unparse(body), "", UnparseElseIfs(eis));
        WithinSeq2(n, Unparse(body), "", UnparseElseIfs(eis));
        var b2 := if els.Some? then Seq2(b, "{% else -%}", Unparse(els.value)) else b;
        if els.Some? {
          WithinSeq2(n, b, "{% else -%}", Unparse(els.value));
        }
        var cond := Unparse(c);
        var text := "{% if " + cond.text + " -%}" + b2.text + "{% endif -%}";
        inner := Rendering(text, b2.touched + cond.touched, b2.vars + cond.vars, b2.funcs + cond.funcs, b2.consts + cond.consts);
        WithinUnion(n, b2, cond, text);
      case _ => assert false;
    }
    assert Unparse(n) == Touch(n.id, inner);
    WithinTouch(n, inner);
  }

  /** The rendering of a while or foreach loop belongs to it. */
  lemma {:induction false} WithinLoop(n: Node)
    requires n.kind.While? || n.kind.Foreach?
    ensures Within(n, Unparse(n))
    decreases n, 3
  {
    hide Within, Occurs, HasId;
    var inner: Rendering;
    match n.kind {
      case While(c, body) =>
        WithinChild(n, c);
        WithinChild(n, body);
        WithinWrap(n, "{% for XXX in ", Unparse(c), " -%}");
        WithinWrap(n, "", Unparse(body), "{% endfor -%}");
        inner := ForTemplate("XXX", Unparse(c), Unparse(body));
        WithinSeq2(n, Wrap("{% for XXX in ", Unparse(c), " -%}"), "", Wrap("", Unparse(body), "{% endfor -%}"));
      case Foreach(e, kv, vv, body) =>
        WithinChild(n, e);
        WithinChild(n, body);
        var v := if kv.Some? then DropFirst(kv.value) + ", " + DropFirst(vv) else DropFirst(vv);
        WithinWrap(n, "{% for " + v + " in ", Unparse(e), " -%}");
        WithinWrap(n, "", Unparse(body), "{% endfor -%}");
        inner := ForTemplate(v, Unparse(e), Unparse(body));
        WithinSeq2(n, Wrap("{% for " + v + " in ", Unparse(e), " -%}"), "", Wrap("", Unparse(body), "{% endfor -%}"));
      case _ => assert false;
    }
    assert Unparse(n) == Touch(n.id, inner);
    WithinTouch(n, inner);
  }

  /**
   * unparse_node records only the subtree it is given: the node itself
   * first, then ids below it, and it collects only names that occur there.
   * A variable contributes its own name, a call its function's name, and a
   * constant its own name.
   */
  lemma {:induction false} UnparseWithin(n: Node)
    ensures Within(n, Unparse(n))
    ensures |Unparse(n).touched| >= 1 && Unparse(n).touched[0] == n.id
    ensures n.kind.Variable? ==> n.kind.name in Unparse(n).vars
    ensures n.kind.FunctionCall? ==> n.kind.name in Unparse(n).funcs
    ensures n.kind.Constant? ==> n.kind.name in Unparse(n).consts
    decreases n, 4
  {
    match n.kind
    case Lit(_) => WithinText(n);
    case InlineHTML(_) => WithinText(n);
    case Constant(_) => WithinNamed(n);
    case Variable(_) => WithinNamed(n);
    case AssignOp(_, _, _, _) => WithinPlaceholder(n);
    case DoWhile(_, _, _) => WithinPlaceholder(n);
    case For(_, _) => WithinPlaceholder(n);
    case Function(_, _, _) => WithinPlaceholder(n);
    case Other(_, _) => WithinText(n);
    case Include(_) => WithinUnary(n);
    case ObjectProperty(_, _) => WithinUnary(n);
    case UnaryOp(_, _) => WithinUnary(n);
    case Empty(_) => WithinPrefix(n);
    case Silence(_) => WithinPrefix(n);
    case Cast(_, _) => WithinPrefix(n);
    case Return(_) => WithinPrefix(n);
    case ArrayOffset(_, _) => WithinBinary(n);
    case Assignment(_, _) => WithinBinary(n);
    case BinaryOp(_, _, _) => WithinOperator(n);
    case TernaryOp(_, _, _) => WithinOperator(n);
    case Echo(_) => WithinStatements(n);
    case Block(_) => WithinStatements(n);
    case IsSet(_) => WithinStatements(n);
    case Array(_) => WithinArray(n);
    case FunctionCall(_, _) => WithinCall(n);
    case MethodCall(_, _, _) => WithinCall(n);
    case If(_, _, _, _) => WithinIf(n);
    case While(_, _) => WithinLoop(n);
    case Foreach(_, _, _, _) => WithinLoop(n);
  }

  /** A function's parameter names without their `$`. */
  function ParamNames(params: seq<string>): (r: seq<string>)
    ensures |r| == |params|
    ensures forall i :: 0 <= i < |params| ==> r[i] == DropFirst(params[i])
  {
    if |params| == 0 then [] else [DropFirst(params[0])] + ParamNames(params[1..])
  }
}
