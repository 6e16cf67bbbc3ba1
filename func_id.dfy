/**
 * generate_func_id (my_php_listener.py): the id that links a call to the
 * function declared with the same name and number of parameters. The regex
 * `(.*)\((.*)\)` is searched greedily, so group 1 ends at the last `(` that
 * has a `)` after it and group 2 runs from there to the last `)`.
 */
module FuncIds {
  import opened Wrappers
  import opened PhpAst

  /** The last index of `c` in `s`, if any. */
  function LastIndex(s: string, c: char): (r: Option<nat>)
    ensures r.Some? ==> r.value < |s| && s[r.value] == c && forall k :: r.value < k < |s| ==> s[k] != c
    ensures r.None? ==> forall k :: 0 <= k < |s| ==> s[k] != c
  {
    if |s| == 0 then None
    else if s[|s| - 1] == c then Some(|s| - 1)
    else LastIndex(s[..|s| - 1], c)
  }

  /** The number of occurrences of `c` in `s`. */
  function Count(s: string, c: char): nat {
    if |s| == 0 then 0 else (if s[0] == c then 1 else 0) + Count(s[1..], c)
  }

  /** `len(params.split(','))`, or 0 when `params` is empty. */
  function ParamCount(params: string): nat {
    if params == "" then 0 else Count(params, ',') + 1
  }

  /**
   * generate_func_id: group 1 followed by the decimal parameter count; None
   * where the source's `match.group` would fail because the regex does not
   * match (no `(` followed later by a `)`).
   */
  function GenerateFuncId(func: string): (r: Option<string>)
    ensures r.Some? <==> exists i, j :: 0 <= i < j < |func| && func[i] == '(' && func[j] == ')'
  {
    match LastIndex(func, ')')
    case None => None
    case Some(q) =>
      match LastIndex(func[..q], '(')
      case None =>
        assert forall i, j :: 0 <= i < j < |func| && func[j] == ')' ==> j <= q && func[..q][i] == func[i];
        None
      case Some(p) =>
        assert func[p] == '(' && func[q] == ')';
        Some(func[..p] + NatToString(ParamCount(func[p + 1..q])))
  }

  lemma {:induction false} CountAppend(a: string, b: string, c: char)
    ensures Count(a + b, c) == Count(a, c) + Count(b, c)
  {
    if |a| > 0 {
      assert (a + b)[1..] == a[1..] + b;
      CountAppend(a[1..], b, c);
    } else {
      assert a + b == b;
    }
  }

  lemma {:induction false} CountAbsent(s: string, c: char)
    requires forall k :: 0 <= k < |s| ==> s[k] != c
    ensures Count(s, c) == 0
  {
    if |s| > 0 {
      CountAbsent(s[1..], c);
    }
  }

  /** A string none of whose parts contains `c` (and `sep` does not either) joins without `c`. */
  lemma {:induction false} JoinAvoids(parts: seq<string>, sep: string, c: char)
    requires forall k :: 0 <= k < |sep| ==> sep[k] != c
    requires forall i, k :: 0 <= i < |parts| && 0 <= k < |parts[i]| ==> parts[i][k] != c
    ensures forall k :: 0 <= k < |Join(parts, sep)| ==> Join(parts, sep)[k] != c
  {
    if |parts| > 1 {
      JoinAvoids(parts[1..], sep, c);
      var rest := Join(parts[1..], sep);
      assert Join(parts, sep) == parts[0] + sep + rest;
      forall k | 0 <= k < |Join(parts, sep)| ensures Join(parts, sep)[k] != c {
        if k < |parts[0]| {
          assert Join(parts, sep)[k] == parts[0][k];
        } else if k < |parts[0]| + |sep| {
          assert Join(parts, sep)[k] == sep[k - |parts[0]|];
        } else {
          assert Join(parts, sep)[k] == rest[k - |parts[0]| - |sep|];
        }
      }
    }
  }

  /** Joining comma-free parts with ", " leaves one comma between each pair. */
  lemma {:induction false} JoinCommas(parts: seq<string>)
    requires forall i, k :: 0 <= i < |parts| && 0 <= k < |parts[i]| ==> parts[i][k] != ','
    ensures |parts| > 0 ==> Count(Join(parts, ", "), ',') == |parts| - 1
  {
    if |parts| == 1 {
      CountAbsent(parts[0], ',');
    } else if |parts| > 1 {
      JoinCommas(parts[1..]);
      CountAbsent(parts[0], ',');
      CountAppend(parts[0] + ", ", Join(parts[1..], ", "), ',');
      CountAppend(parts[0], ", ", ',');
    }
  }

  lemma {:induction false} JoinNonEmpty(parts: seq<string>, sep: string)
    requires |parts| > 0 && forall i :: 0 <= i < |parts| ==> parts[i] != ""
    ensures Join(parts, sep) != ""
  {
    if |parts| > 1 {
      assert |Join(parts, sep)| >= |parts[0]|;
    }
  }

  /**
   * The id of a signature text `name(p1, ..., pk)` whose parts are non-empty
   * and free of `(` and `,` is `name` followed by k; `name()` gives `name0`.
   */
  lemma {:induction false} FuncIdOfSignature(name: string, parts: seq<string>)
    requires forall i :: 0 <= i < |parts| ==> parts[i] != ""
    requires forall i, k :: 0 <= i < |parts| && 0 <= k < |parts[i]| ==> parts[i][k] != '(' && parts[i][k] != ','
    ensures GenerateFuncId(name + "(" + Join(parts, ", ") + ")") == Some(name + NatToString(|parts|))
  {
    var inner := Join(parts, ", ");
    var s := name + "(" + inner + ")";
    assert LastIndex(s, ')') == Some(|s| - 1);
    JoinAvoids(parts, ", ", '(');
    var pre := s[..|s| - 1];
    assert pre == name + "(" + inner;
    assert LastIndex(pre, '(') == Some(|name|) by {
      LastIndexAfter(name + "(", inner, '(');
    }
    assert s[..|name|] == name;
    assert s[|name| + 1..|s| - 1] == inner;
    JoinCommas(parts);
    if |parts| > 0 {
      JoinNonEmpty(parts, ", ");
    }
  }

  /** The last `c` of `a + b` is the final character of `a` when `b` has none. */
  lemma {:induction false} LastIndexAfter(a: string, b: string, c: char)
    requires |a| > 0 && a[|a| - 1] == c
    requires forall k :: 0 <= k < |b| ==> b[k] != c
    ensures LastIndex(a + b, c) == Some(|a| - 1)
  {
    if |b| > 0 {
      assert (a + b)[..|a + b| - 1] == a + b[..|b| - 1];
      LastIndexAfter(a, b[..|b| - 1], c);
    } else {
      assert a + b == a;
    }
  }

  /** The texts of a list of renderings. */
  function Texts(ns: seq<Node>): (r: seq<string>)
    ensures |r| == |ns| && forall i :: 0 <= i < |ns| ==> r[i] == Unparse(ns[i]).text
  {
    if |ns| == 0 then [] else [Unparse(ns[0]).text] + Texts(ns[1..])
  }

  lemma {:induction false} UnparseListText(ns: seq<Node>, sep: string)
    ensures UnparseList(ns, sep).text == Join(Texts(ns), sep)
  {
    if |ns| > 1 {
      UnparseListText(ns[1..], sep);
      assert Texts(ns)[1..] == Texts(ns[1..]);
    }
  }

  /** A parameter list fit for the signature lemma: non-empty, no `(` and no `,`. */
  predicate SimpleParts(parts: seq<string>) {
    (forall i :: 0 <= i < |parts| ==> parts[i] != "") &&
    forall i, k :: 0 <= i < |parts| && 0 <= k < |parts[i]| ==> parts[i][k] != '(' && parts[i][k] != ','
  }

  /**
   * A function declaration's rendering `name(a, b)` gives `name` plus its
   * number of parameters.
   */
  lemma {:induction false} DeclarationId(n: Node)
    requires n.kind.Function? && SimpleParts(ParamNames(n.kind.params))
    ensures GenerateFuncId(Unparse(n).text) == Some(n.kind.name + NatToString(|n.kind.params|))
  {
    hide GenerateFuncId, NatToString, Join;
    var parts := ParamNames(n.kind.params);
    assert Unparse(n).text == n.kind.name + "(" + Join(parts, ", ") + ")";
    FuncIdOfSignature(n.kind.name, parts);
  }

  /**
   * A call whose argument renderings are simple gets `name` plus its number
   * of arguments, so it is linked to a declaration with the same name and
   * arity.
   */
  lemma {:induction false} CallId(n: Node)
    requires n.kind.FunctionCall? && SimpleParts(Texts(n.kind.args))
    ensures GenerateFuncId(Unparse(n).text) == Some(n.kind.name + NatToString(|n.kind.args|))
  {
    hide GenerateFuncId, NatToString, Join;
    var parts := Texts(n.kind.args);
    UnparseListText(n.kind.args, ", ");
    assert Unparse(n).text == n.kind.name + "(" + Join(parts, ", ") + ")";
    FuncIdOfSignature(n.kind.name, parts);
  }

  /** One level of nesting already breaks the link: `f(g(x))` gets the id `f(g1`, not `f1`. */
  lemma NestedCallId()
    ensures GenerateFuncId("f(g(x))") == Some("f(g1")
  {
    assert LastIndex("f(g(x))", ')') == Some(6);
    assert "f(g(x))"[..6] == "f(g(x)";
    assert LastIndex("f(g(x)", '(') == Some(3);
    assert "f(g(x))"[..3] == "f(g";
    assert "f(g(x))"[4..6] == "x)";
    assert Count("x)", ',') == 0;
    assert ParamCount("x)") == 1;
    assert NatToString(1) == "1";
    var s := "f(g(x))";
    assert GenerateFuncId(s) == Some(s[..3] + NatToString(ParamCount(s[4..6])));
    assert "f(g" + "1" == "f(g1";
  }
}
