/**
 * The hyperparameter grid of the model search (model/train.py): the
 * candidate values of each parameter of each model type, their cartesian
 * product in `itertools.product` order, one parameter dictionary per
 * element, and the range check on the number of features to keep. Model
 * creation, fitting and scoring are left out.
 */
module Training {
  import opened Wrappers

  /** A hyperparameter value as the table writes it: integer, float, string, boolean or None. */
  datatype Value = Int(i: int) | Real(r: real) | Str(s: string) | Bool(b: bool) | NoneValue

  /** The `hyperparameters` table: per model type, its parameters in insertion order with their values. */
  function Hyperparameters(): map<string, seq<(string, seq<Value>)>> {
    map[
    "DecisionTreeClassifier" := [
      ("max_depth", [Int(5), Int(15), Int(30), NoneValue]),
      ("min_samples_leaf", [Int(1), Int(2), Int(10), Int(50), Int(100)]),
      ("max_features", [Str("log2"), Str("sqrt"), NoneValue]),
      ("n_jobs", [Int(-1)]),
      ("class_weight", [Str("balanced")])],
    "BernoulliNB" := [
      ("alpha", [Real(0.001), Real(0.003), Real(0.01), Real(0.03), Real(0.1), Int(1), Int(3), Int(10), Int(30), Int(100)]),
      ("binarize", [NoneValue])],
    "RandomForestClassifier" := [
      ("n_estimators", [Int(300), Int(500)]),
      ("max_depth", [Int(5), Int(15), Int(30), NoneValue]),
      ("min_samples_leaf", [Int(1), Int(2), Int(10)]),
      ("max_features", [Str("log2"), Str("sqrt")]),
      ("class_weight", [Str("balanced")]),
      ("n_jobs", [Int(-1)])],
    "TAN" := [
      ("mbc", [Str("")]),
      ("score_type", [Str("BAYES")])],
    "SVM" := [
      ("C", [Real(0.01), Real(0.1), Int(1), Int(10), Int(100)]),
      ("gamma", [Real(0.0001), Real(0.01), Real(0.1), Int(1), Int(10), Int(100), Str("auto")]),
      ("kernel", [Str("rbf")]),
      ("probability", [Bool(true)]),
      ("shrinking", [Bool(false)]),
      ("class_weight", [Str("balanced")])],
    "LogisticRegression" := [
      ("penalty", [Str("l1"), Str("l2")]),
      ("C", [Real(0.001), Real(0.01), Real(0.1), Int(1), Int(10), Int(100)]),
      ("class_weight", [Str("balanced")]),
      ("n_jobs", [Int(-1)])],
    "DummyClassifier" := [
      ("strategy", [Str("most_frequent"), Str("stratified"), Str("uniform")])]
    ]
  }

  /** `a * b`, spelled out so that contracts about positions stay linear. */
  function Mul(a: nat, b: nat): nat {
    if a == 0 then 0 else b + Mul(a - 1, b)
  }

  lemma {:induction false} MulOne(a: nat)
    ensures Mul(a, 1) == a && Mul(1, a) == a
    decreases a
  {
    if a > 0 {
      MulOne(a - 1);
    }
  }

  /** Offset `b` in block `a` of blocks of size `n` lies before the end of block `x - 1`. */
  lemma {:induction false} MulLess(a: nat, b: nat, x: nat, n: nat)
    requires a < x && b < n
    ensures Mul(a, n) + b < Mul(x, n)
    decreases x
  {
    if a < x - 1 {
      MulLess(a, b, x - 1, n);
    }
  }

  lemma {:induction false} MulDistrib(x: nat, y: nat, l: nat)
    ensures Mul(x + y, l) == Mul(x, l) + Mul(y, l)
    decreases x
  {
    if x > 0 {
      MulDistrib(x - 1, y, l);
    }
  }

  lemma {:induction false} MulAssoc(a: nat, b: nat, c: nat)
    ensures Mul(a, Mul(b, c)) == Mul(Mul(a, b), c)
    decreases a
  {
    if a > 0 {
      MulAssoc(a - 1, b, c);
      MulDistrib(b, Mul(a - 1, b), c);
    }
  }

  /** Position `(a * n + c) * l` is offset `c * l` in block `a` of blocks of size `n * l`. */
  lemma Regroup(a: nat, n: nat, c: nat, l: nat)
    ensures Mul(Mul(a, n) + c, l) == Mul(a, Mul(n, l)) + Mul(c, l)
  {
    MulDistrib(Mul(a, n), c, l);
    MulAssoc(a, n, l);
  }

  /** `[x] + t` for every `x` of `xs` and every `t` of `ts`, `x` varying slowest. */
  function Prepend(xs: seq<Value>, ts: seq<seq<Value>>): (r: seq<seq<Value>>)
    ensures |r| == Mul(|xs|, |ts|)
  {
    if xs == [] then []
    else seq(|ts|, b requires 0 <= b < |ts| => [xs[0]] + ts[b]) + Prepend(xs[1..], ts)
  }

  /** Every entry of `Prepend(xs, ts)` is a value of `xs` followed by an entry of `ts`. */
  lemma {:induction false} PrependMembers(xs: seq<Value>, ts: seq<seq<Value>>)
    ensures forall x :: x in Prepend(xs, ts) ==> |x| > 0 && x[0] in xs && x[1..] in ts
    decreases |xs|
  {
    if xs != [] {
      PrependMembers(xs[1..], ts);
      var head := seq(|ts|, b requires 0 <= b < |ts| => [xs[0]] + ts[b]);
      assert Prepend(xs, ts) == head + Prepend(xs[1..], ts);
      forall x | x in Prepend(xs, ts)
        ensures |x| > 0 && x[0] in xs && x[1..] in ts
      {
        if x in head {
          var b :| 0 <= b < |ts| && head[b] == x;
          assert x[1..] == ts[b];
        } else {
          assert x in Prepend(xs[1..], ts);
          assert x[0] in xs[1..];
        }
      }
    }
  }

  /**
   * `itertools.product(*lists)`: all choices of one value per list, the
   * first list varying slowest; there are as many as the product of the
   * lengths.
   */
  function Product(lists: seq<seq<Value>>): (r: seq<seq<Value>>)
    ensures |r| == Count(lists)
    ensures forall j :: 0 <= j < |r| ==> |r[j]| == |lists|
  {
    if lists == [] then [[]]
    else
      var rest := Product(lists[1..]);
      var r := Prepend(lists[0], rest);
      PrependMembers(lists[0], rest);
      assert forall j :: 0 <= j < |r| ==> r[j] in r && r[j][1..] in rest;
      r
  }

  /** Each element of the product has one value from every list, in list order. */
  lemma {:induction false} ProductMembers(lists: seq<seq<Value>>)
    ensures forall x :: x in Product(lists) ==> |x| == |lists| && forall i :: 0 <= i < |lists| ==> x[i] in lists[i]
    decreases |lists|
  {
    if lists != [] {
      var rest := Product(lists[1..]);
      ProductMembers(lists[1..]);
      PrependMembers(lists[0], rest);
      ProductCons(lists);
      hide Product, Prepend;
      forall x | x in Product(lists)
        ensures |x| == |lists| && forall i :: 0 <= i < |lists| ==> x[i] in lists[i]
      {
        var tail := x[1..];
        assert |x| > 0 && x[0] in lists[0] && tail in rest;
        assert |tail| == |lists| - 1 && forall i :: 0 <= i < |lists| - 1 ==> tail[i] in lists[1..][i];
        forall i | 1 <= i < |lists|
          ensures x[i] in lists[i]
        {
          assert x[i] == tail[i - 1] && lists[i] == lists[1..][i - 1];
        }
      }
    }
  }

  lemma ProductCons(lists: seq<seq<Value>>)
    requires lists != []
    ensures Product(lists) == Prepend(lists[0], Product(lists[1..]))
  {
  }

  /** The product of the lengths of the lists. */
  function Count(lists: seq<seq<Value>>): nat {
    if lists == [] then 1 else Mul(|lists[0]|, Count(lists[1..]))
  }

  /** Entry `a * |ts| + b` of `Prepend(xs, ts)` is `[xs[a]] + ts[b]`. */
  lemma {:induction false} PrependAt(xs: seq<Value>, ts: seq<seq<Value>>, a: nat, b: nat)
    requires a < |xs| && b < |ts|
    ensures Mul(a, |ts|) + b < |Prepend(xs, ts)|
    ensures Prepend(xs, ts)[Mul(a, |ts|) + b] == [xs[a]] + ts[b]
    decreases a
  {
    MulLess(a, b, |xs|, |ts|);
    var head := seq(|ts|, k requires 0 <= k < |ts| => [xs[0]] + ts[k]);
    assert Prepend(xs, ts) == head + Prepend(xs[1..], ts);
    if a > 0 {
      PrependAt(xs[1..], ts, a - 1, b);
    }
  }

  /** Every entry of `Prepend(xs, ts)` is `[xs[a]] + ts[b]` at position `a * |ts| + b`. */
  lemma {:induction false} PrependEntry(xs: seq<Value>, ts: seq<seq<Value>>, j: nat)
    requires j < |Prepend(xs, ts)|
    ensures exists a: nat, b: nat :: a < |xs| && b < |ts| && j == Mul(a, |ts|) + b &&
                                     Prepend(xs, ts)[j] == [xs[a]] + ts[b]
    decreases |xs|
  {
    var n := |ts|;
    assert xs != [];
    var head := seq(|ts|, k requires 0 <= k < |ts| => [xs[0]] + ts[k]);
    assert Prepend(xs, ts) == head + Prepend(xs[1..], ts);
    if j < n {
      assert Prepend(xs, ts)[j] == head[j];
      assert j == Mul(0, n) + j;
    } else {
      PrependEntry(xs[1..], ts, j - n);
      var a: nat, b: nat :| a < |xs| - 1 && b < n && j - n == Mul(a, n) + b &&
                            Prepend(xs[1..], ts)[j - n] == [xs[1..][a]] + ts[b];
      assert j == Mul(a + 1, n) + b;
    }
  }

  /** Every choice of one value per list is an element. */
  lemma {:induction false} ProductComplete(lists: seq<seq<Value>>, e: seq<Value>)
    requires |e| == |lists| && forall i :: 0 <= i < |lists| ==> e[i] in lists[i]
    ensures e in Product(lists)
    decreases |lists|
  {
    if lists != [] {
      ProductCons(lists);
      var rest := Product(lists[1..]);
      ProductComplete(lists[1..], e[1..]);
      var a :| 0 <= a < |lists[0]| && lists[0][a] == e[0];
      var b :| 0 <= b < |rest| && rest[b] == e[1..];
      PrependAt(lists[0], rest, a, b);
      assert [e[0]] + e[1..] == e;
    }
  }

  /**
   * The last list varies fastest: entry `i * |l| + k` of the product with
   * `l` appended is entry `i` of the product without it, followed by `l[k]`.
   */
  lemma {:induction false} LastFastest(lists: seq<seq<Value>>, l: seq<Value>, i: nat, k: nat)
    requires i < Count(lists) && k < |l|
    ensures Mul(i, |l|) + k < Count(lists + [l])
    ensures Product(lists + [l])[Mul(i, |l|) + k] == Product(lists)[i] + [l[k]]
    decreases |lists|
  {
    IndexBound(lists, l, i, k);
    if lists == [] {
      LastFastestOne(l, k);
      assert lists + [l] == [l];
    } else {
      ProductCons(lists);
      var rest := Product(lists[1..]);
      PrependEntry(lists[0], rest, i);
      var a: nat, c: nat :| a < |lists[0]| && c < |rest| && i == Mul(a, |rest|) + c &&
                            Product(lists)[i] == [lists[0][a]] + rest[c];
      LastFastest(lists[1..], l, c, k);
      LastFastestStep(lists, l, i, k, a, c);
    }
  }

  /** A single list: entry `k` of its product is `[l[k]]`. */
  lemma LastFastestOne(l: seq<Value>, k: nat)
    requires k < |l|
    ensures Mul(0, |l|) + k < |Product([l])|
    ensures Product([l])[Mul(0, |l|) + k] == Product([])[0] + [l[k]]
  {
    ProductCons([l]);
    assert [l][1..] == [];
    MulOne(k);
    PrependAt(l, [[]], k, 0);
  }

  /** The inductive step of `LastFastest`: block `a`, offset `c` of the product, extended by `l[k]`. */
  lemma LastFastestStep(lists: seq<seq<Value>>, l: seq<Value>, i: nat, k: nat, a: nat, c: nat)
    requires lists != [] && k < |l|
    requires var rest := Product(lists[1..]);
             a < |lists[0]| && c < |rest| && i == Mul(a, |rest|) + c && i < |Product(lists)| &&
             Product(lists)[i] == [lists[0][a]] + rest[c]
    requires Mul(c, |l|) + k < |Product(lists[1..] + [l])|
    requires Product(lists[1..] + [l])[Mul(c, |l|) + k] == Product(lists[1..])[c] + [l[k]]
    ensures Mul(i, |l|) + k < |Product(lists + [l])|
    ensures Product(lists + [l])[Mul(i, |l|) + k] == Product(lists)[i] + [l[k]]
  {
    var m := lists + [l];
    var rest := Product(lists[1..]);
    assert m[0] == lists[0] && m[1..] == lists[1..] + [l];
    ProductCons(m);
    hide Product, Prepend, Count, Mul;
    var longer := Product(m[1..]);
    CountSnoc(lists[1..], l);
    assert |longer| == Mul(|rest|, |l|);
    IndexSplit(i, a, |rest|, c, |l|, k);
    var j := Mul(c, |l|) + k;
    PrependAt(lists[0], longer, a, j);
    var idx := Mul(i, |l|) + k;
    assert idx == Mul(a, |longer|) + j;
    assert Product(m)[idx] == [lists[0][a]] + (rest[c] + [l[k]]);
    assert [lists[0][a]] + (rest[c] + [l[k]]) == ([lists[0][a]] + rest[c]) + [l[k]];
  }

  /** Position `i * |l| + k` is inside the product with `l` appended. */
  lemma IndexBound(lists: seq<seq<Value>>, l: seq<Value>, i: nat, k: nat)
    requires i < Count(lists) && k < |l|
    ensures Mul(i, |l|) + k < Count(lists + [l])
  {
    CountSnoc(lists, l);
    MulLess(i, k, Count(lists), |l|);
  }

  /** Position `i * L + k`, with `i = a * n + c`, is offset `c * L + k` in block `a` of blocks of size `n * L`. */
  lemma IndexSplit(i: nat, a: nat, n: nat, c: nat, L: nat, k: nat)
    requires i == Mul(a, n) + c
    ensures Mul(i, L) + k == Mul(a, Mul(n, L)) + (Mul(c, L) + k)
  {
    Regroup(a, n, c, L);
  }

  lemma {:induction false} CountSnoc(lists: seq<seq<Value>>, l: seq<Value>)
    ensures Count(lists + [l]) == Mul(Count(lists), |l|)
    decreases |lists|
  {
    if lists == [] {
      assert (lists + [l])[1..] == [];
      MulOne(|l|);
    } else {
      assert (lists + [l])[1..] == lists[1..] + [l];
      CountSnoc(lists[1..], l);
      MulAssoc(|lists[0]|, Count(lists[1..]), |l|);
    }
  }

  /** The parameter dictionary of one element: parameter `i` maps to value `i`. */
  function Combo(parameters: seq<string>, element: seq<Value>): map<string, Value>
    requires |element| == |parameters|
  {
    if parameters == [] then map[]
    else Combo(parameters[..|parameters| - 1], element[..|element| - 1])[parameters[|parameters| - 1] := element[|element| - 1]]
  }

  /** With distinct parameter names, each parameter maps to its own value and nothing else is in the dictionary. */
  lemma {:induction false} ComboAt(parameters: seq<string>, element: seq<Value>)
    requires |element| == |parameters|
    requires forall i, j :: 0 <= i < j < |parameters| ==> parameters[i] != parameters[j]
    ensures Combo(parameters, element).Keys == set i | 0 <= i < |parameters| :: parameters[i]
    ensures forall i :: 0 <= i < |parameters| ==> Combo(parameters, element)[parameters[i]] == element[i]
    decreases |parameters|
  {
    if parameters != [] {
      var n := |parameters| - 1;
      ComboAt(parameters[..n], element[..n]);
    }
  }

  /** The names of a parameter list. */
  function Names(items: seq<(string, seq<Value>)>): (r: seq<string>)
    ensures |r| == |items| && forall i :: 0 <= i < |items| ==> r[i] == items[i].0
  {
    seq(|items|, i requires 0 <= i < |items| => items[i].0)
  }

  /** The value lists of a parameter list. */
  function ValueLists(items: seq<(string, seq<Value>)>): (r: seq<seq<Value>>)
    ensures |r| == |items| && forall i :: 0 <= i < |items| ==> r[i] == items[i].1
  {
    seq(|items|, i requires 0 <= i < |items| => items[i].1)
  }

  /** The inner loop of get_hyperparameter_combinations: one dictionary from one element. */
  method MakeCombo(parameters: seq<string>, element: seq<Value>) returns (combo: map<string, Value>)
    requires |element| == |parameters|
    ensures combo == Combo(parameters, element)
  {
    combo := map[];
    for i := 0 to |element|
      invariant combo == Combo(parameters[..i], element[..i])
    {
      assert parameters[..i + 1][..i] == parameters[..i] && element[..i + 1][..i] == element[..i];
      combo := combo[parameters[i] := element[i]];
    }
    assert parameters[..|element|] == parameters && element[..|element|] == element;
  }

  /** The first loop of get_hyperparameter_combinations: names and value lists side by side. */
  method SplitItems(items: seq<(string, seq<Value>)>) returns (parameters: seq<string>, valueLists: seq<seq<Value>>)
    ensures parameters == Names(items) && valueLists == ValueLists(items)
  {
    parameters := [];
    valueLists := [];
    for i := 0 to |items|
      invariant parameters == Names(items[..i]) && valueLists == ValueLists(items[..i])
    {
      parameters := parameters + [items[i].0];
      valueLists := valueLists + [items[i].1];
    }
    assert items[..|items|] == items;
  }

  /** The second loop of get_hyperparameter_combinations: one dictionary per element of the product. */
  method MakeCombos(parameters: seq<string>, product: seq<seq<Value>>) returns (combinations: seq<map<string, Value>>)
    requires forall j :: 0 <= j < |product| ==> |product[j]| == |parameters|
    ensures |combinations| == |product|
    ensures forall j :: 0 <= j < |product| ==> combinations[j] == Combo(parameters, product[j])
  {
    hide Combo;
    combinations := [];
    for j := 0 to |product|
      invariant |combinations| == j
      invariant forall q :: 0 <= q < j ==> combinations[q] == Combo(parameters, product[q])
    {
      var combo := MakeCombo(parameters, product[j]);
      combinations := combinations + [combo];
    }
  }

  /**
   * get_hyperparameter_combinations: split the model type's entries into
   * parameter names and value lists, then build one dictionary per element
   * of the product. An unknown model type raises a KeyError, here `None`.
   */
  method GetHyperparameterCombinations(modelType: string) returns (r: Option<seq<map<string, Value>>>)
    ensures r.None? <==> modelType !in Hyperparameters()
    ensures r.Some? ==>
              var items := Hyperparameters()[modelType];
              var product := Product(ValueLists(items));
              |r.value| == |product| &&
              forall j :: 0 <= j < |product| ==> r.value[j] == Combo(Names(items), product[j])
  {
    hide Hyperparameters, Names, ValueLists, Combo;
    if modelType !in Hyperparameters() {
      return None;
    }
    var items := Hyperparameters()[modelType];
    var parameters, valueLists := SplitItems(items);
    var product := Product(valueLists);
    var combinations := MakeCombos(parameters, product);
    return Some(combinations);
  }

  /** The parameter names of every model type are distinct, as dictionary keys are. */
  lemma TableKeysDistinct(modelType: string)
    requires modelType in Hyperparameters()
    ensures var items := Hyperparameters()[modelType];
            forall i, j :: 0 <= i < j < |items| ==> items[i].0 != items[j].0
  {
  }

  /**
   * The grid of a parameter list with distinct names: as many combinations
   * as the product of its list lengths, each mapping every parameter, and
   * only those, to a value from that parameter's list, and every such
   * mapping present.
   */
  lemma GridShape(items: seq<(string, seq<Value>)>, r: seq<map<string, Value>>)
    requires forall i, j :: 0 <= i < j < |items| ==> items[i].0 != items[j].0
    requires var product := Product(ValueLists(items));
             |r| == |product| && forall j :: 0 <= j < |product| ==> r[j] == Combo(Names(items), product[j])
    ensures |r| == Count(ValueLists(items))
    ensures forall j :: 0 <= j < |r| ==>
              r[j].Keys == (set i | 0 <= i < |items| :: items[i].0) &&
              forall i :: 0 <= i < |items| ==> r[j][items[i].0] in items[i].1
    ensures forall e :: |e| == |items| && (forall i :: 0 <= i < |items| ==> e[i] in items[i].1) ==>
              Combo(Names(items), e) in r
  {
    GridEntries(items, r);
    GridComplete(items, r);
  }

  /** Each combination maps every parameter, and only those, to a value from that parameter's list. */
  lemma GridEntries(items: seq<(string, seq<Value>)>, r: seq<map<string, Value>>)
    requires forall i, j :: 0 <= i < j < |items| ==> items[i].0 != items[j].0
    requires var product := Product(ValueLists(items));
             |r| == |product| && forall j :: 0 <= j < |product| ==> r[j] == Combo(Names(items), product[j])
    ensures forall j :: 0 <= j < |r| ==>
              r[j].Keys == (set i | 0 <= i < |items| :: items[i].0) &&
              forall i :: 0 <= i < |items| ==> r[j][items[i].0] in items[i].1
  {
    var lists := ValueLists(items);
    var names := Names(items);
    var product := Product(lists);
    ProductMembers(lists);
    assert (set i | 0 <= i < |names| :: names[i]) == (set i | 0 <= i < |items| :: items[i].0);
    hide Product, Combo;
    forall j | 0 <= j < |r|
      ensures r[j].Keys == (set i | 0 <= i < |items| :: items[i].0)
      ensures forall i :: 0 <= i < |items| ==> r[j][items[i].0] in items[i].1
    {
      var e := product[j];
      assert e in product;
      ComboAt(names, e);
      assert forall i :: 0 <= i < |items| ==> e[i] in lists[i];
    }
  }

  /** Every choice of one value per parameter is one of the combinations. */
  lemma GridComplete(items: seq<(string, seq<Value>)>, r: seq<map<string, Value>>)
    requires var product := Product(ValueLists(items));
             |r| == |product| && forall j :: 0 <= j < |product| ==> r[j] == Combo(Names(items), product[j])
    ensures forall e :: |e| == |items| && (forall i :: 0 <= i < |items| ==> e[i] in items[i].1) ==>
              Combo(Names(items), e) in r
  {
    var lists := ValueLists(items);
    var names := Names(items);
    var product := Product(lists);
    hide Product, Combo;
    forall e | |e| == |items| && (forall i :: 0 <= i < |items| ==> e[i] in items[i].1)
      ensures Combo(names, e) in r
    {
      ProductComplete(lists, e);
      var j :| 0 <= j < |product| && product[j] == e;
      assert r[j] == Combo(names, e);
    }
  }

  /** The grid of every model type of the table has that shape. */
  lemma TableGridShape(modelType: string, r: seq<map<string, Value>>)
    requires modelType in Hyperparameters()
    requires var items := Hyperparameters()[modelType];
             var product := Product(ValueLists(items));
             |r| == |product| && forall j :: 0 <= j < |product| ==> r[j] == Combo(Names(items), product[j])
    ensures var items := Hyperparameters()[modelType];
            forall j :: 0 <= j < |r| ==>
              r[j].Keys == (set i | 0 <= i < |items| :: items[i].0) &&
              forall i :: 0 <= i < |items| ==> r[j][items[i].0] in items[i].1
  {
    var items := Hyperparameters()[modelType];
    TableKeysDistinct(modelType);
    hide Hyperparameters;
    GridShape(items, r);
  }

  /**
   * The check at the start of select_features: the program stops with an
   * error, here `None`, unless `0 <= k <= columns`.
   */
  function CheckK(k: int, columns: nat): (r: Option<nat>)
    ensures r.Some? <==> 0 <= k <= columns
    ensures r.Some? ==> r.value == k
  {
    if k < 0 || k > columns then None else Some(k)
  }
}
