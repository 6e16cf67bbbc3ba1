/**
 * The command scheduler of the command-line entry point (__main__.py): a
 * table of the commands each command needs first, the expansion of one
 * command into the list to run, the runner that executes every command of a
 * request at most once and after everything it needs, and the parsing of
 * the comma-separated command line. What each `cmd_*` command does is left
 * out; running one is recorded by its name.
 */
module Commands {
  import opened Wrappers
  import PhpAst

  /** The `dependencies` table: the commands each command needs first. */
  function Dependencies(): map<string, seq<string>> {
    map[
    "clean_set" := ["clean_transform"],
    "clean_all" := ["clean_set", "clean_custom"],
    "create_features" := ["create_set"],
    "create_transform" := ["create_set"],
    "create_model" := ["create_transform"],
    "tune_params" := ["create_transform"],
    "calibrate_model" := ["create_model"],
    "select_features" := ["create_transform"],
    "filter_features" := ["create_transform"],
    "test_model" := ["create_model"],
    "store_outliers" := ["create_model"],
    "store_custom" := ["create_model"],
    "store_all" := ["create_model"],
    "display_model" := ["test_model"],
    "display_histo" := ["test_model"],
    "compare_tools" := ["create_model"],
    "count_sets" := ["create_transform"]
    ]
  }

  /**
   * The commands that have a `cmd_<name>` function; `globals()["cmd_" + ex]`
   * raises KeyError for any other name.
   */
  function CommandNames(): set<string> {
    {"clean_set", "clean_custom", "clean_transform", "clean_all", "create_set", "create_features",
     "create_transform", "create_model", "tune_params", "calibrate_model", "select_features",
     "filter_features", "store_outliers", "store_custom", "store_all", "test_model",
     "display_model", "display_histo", "compare_tools", "count_sets"}
  }

  /** A level for each command, lower than that of every command needing it. */
  function Rank(c: string): nat {
    if c in {"display_model", "display_histo"} then 4
    else if c in {"calibrate_model", "test_model", "store_outliers", "store_custom", "store_all", "compare_tools"} then 3
    else if c in {"clean_all", "create_model", "tune_params", "select_features", "filter_features", "count_sets"} then 2
    else if c in {"clean_set", "create_features", "create_transform"} then 1
    else 0
  }

  /**
   * The commands `c` needs directly; none for a command the table does not
   * list. Every one has a lower rank, so the table has no cycle.
   */
  function DirectDeps(c: string): (r: seq<string>)
    ensures forall e :: e in r ==> Rank(e) < Rank(c)
    ensures c !in Dependencies() ==> r == []
  {
    if c in Dependencies() then Dependencies()[c] else []
  }

  /** `c` needs `d`, directly or through other commands. */
  ghost predicate DependsOn(c: string, d: string)
    decreases Rank(c)
  {
    exists e :: e in DirectDeps(c) && (e == d || DependsOn(e, d))
  }

  /**
   * The list get_dependencies returns: the expansions of the direct
   * dependencies, the one listed last first, then `c` itself.
   */
  ghost function Expansion(c: string): seq<string>
    decreases Rank(c), 1
  {
    Front(c, DirectDeps(c)) + [c]
  }

  /** The expansions of `ds`, `ds[0]`'s last. */
  ghost function Front(owner: string, ds: seq<string>): seq<string>
    requires forall e :: e in ds ==> Rank(e) < Rank(owner)
    decreases Rank(owner), 0, |ds|
  {
    if ds == [] then [] else Front(owner, ds[1..]) + Expansion(ds[0])
  }

  /** Visiting one more dependency puts its expansion in front. */
  lemma {:induction false} FrontSnoc(owner: string, ds: seq<string>, d: string)
    requires forall e :: e in ds + [d] ==> Rank(e) < Rank(owner)
    ensures Front(owner, ds + [d]) == Expansion(d) + Front(owner, ds)
    decreases |ds|
  {
    hide Dependencies, Rank;
    if ds == [] {
      assert (ds + [d])[1..] == [];
    } else {
      assert (ds + [d])[1..] == ds[1..] + [d];
      FrontSnoc(owner, ds[1..], d);
    }
  }

  /**
   * get_dependencies: start from `[c]` and put the expansion of each direct
   * dependency, in table order, in front of what is there.
   */
  method GetDependencies(c: string) returns (l: seq<string>)
    ensures l == Expansion(c)
    ensures c !in Dependencies() ==> l == [c]
    decreases Rank(c), 1
  {
    hide Dependencies, Rank;
    l := [c];
    if c in Dependencies() {
      var ds := Dependencies()[c];
      assert ds == DirectDeps(c);
      for k := 0 to |ds|
        invariant l == Front(c, ds[..k]) + [c]
      {
        var e := GetDependencies(ds[k]);
        assert ds[..k + 1] == ds[..k] + [ds[k]];
        FrontSnoc(c, ds[..k], ds[k]);
        l := e + l;
      }
      assert ds[..|ds|] == ds;
    }
  }

  /** The expansion ends with the command itself. */
  lemma ExpansionEnds(c: string)
    ensures |Expansion(c)| > 0 && Expansion(c)[|Expansion(c)| - 1] == c
  {
  }

  /** The expansions of `ds`, the one listed last first. */
  ghost function ReversedExpansions(owner: string, ds: seq<string>): (r: seq<seq<string>>)
    requires forall e :: e in ds ==> Rank(e) < Rank(owner)
    ensures |r| == |ds| && forall k :: 0 <= k < |ds| ==> r[k] == Expansion(ds[|ds| - 1 - k])
    decreases |ds|
  {
    hide Dependencies, Rank, Expansion;
    if ds == [] then []
    else
      var rest := ReversedExpansions(owner, ds[1..]);
      var r := rest + [Expansion(ds[0])];
      assert forall k :: 0 <= k < |ds| ==> r[k] == Expansion(ds[|ds| - 1 - k]) by {
        forall k | 0 <= k < |ds| - 1 ensures r[k] == Expansion(ds[|ds| - 1 - k]) {
          assert r[k] == rest[k] && ds[|ds| - 1 - k] == ds[1..][|ds| - 2 - k];
        }
      }
      r
  }

  /** The direct dependencies' expansions come in reverse table order: the last listed first. */
  lemma {:induction false} FrontOrder(owner: string, ds: seq<string>)
    requires forall e :: e in ds ==> Rank(e) < Rank(owner)
    ensures Front(owner, ds) == Flatten(ReversedExpansions(owner, ds))
    decreases |ds|
  {
    hide Dependencies, Rank;
    if ds != [] {
      FrontOrder(owner, ds[1..]);
      FlattenSnoc(ReversedExpansions(owner, ds[1..]), Expansion(ds[0]));
    }
  }

  function Flatten(parts: seq<seq<string>>): (r: seq<string>)
    ensures forall x :: x in r <==> exists k :: 0 <= k < |parts| && x in parts[k]
  {
    if parts == [] then [] else parts[0] + Flatten(parts[1..])
  }

  lemma {:induction false} FlattenSnoc(parts: seq<seq<string>>, last: seq<string>)
    ensures Flatten(parts + [last]) == Flatten(parts) + last
    decreases |parts|
  {
    if parts == [] {
      assert [last][1..] == [];
    } else {
      assert (parts + [last])[1..] == parts[1..] + [last];
      FlattenSnoc(parts[1..], last);
    }
  }

  /** The expansion holds `c` and exactly the commands `c` depends on. */
  lemma {:induction false} ExpansionContents(c: string)
    ensures forall x :: x in Expansion(c) <==> x == c || DependsOn(c, x)
    decreases Rank(c), 1
  {
    hide Dependencies, Rank;
    FrontContents(c, DirectDeps(c));
  }

  lemma {:induction false} FrontContents(owner: string, ds: seq<string>)
    requires forall e :: e in ds ==> Rank(e) < Rank(owner)
    ensures forall x :: x in Front(owner, ds) <==> exists e :: e in ds && (e == x || DependsOn(e, x))
    decreases Rank(owner), 0, |ds|
  {
    hide Dependencies, Rank;
    if ds != [] {
      FrontContents(owner, ds[1..]);
      ExpansionContents(ds[0]);
      var before := Front(owner, ds[1..]);
      assert Front(owner, ds) == before + Expansion(ds[0]);
      forall x ensures x in Front(owner, ds) <==> exists e :: e in ds && (e == x || DependsOn(e, x)) {
        if x in before {
          var e :| e in ds[1..] && (e == x || DependsOn(e, x));
          assert e in ds;
        } else if x in Expansion(ds[0]) {
          assert ds[0] in ds;
        }
        if exists e :: e in ds && (e == x || DependsOn(e, x)) {
          var e :| e in ds && (e == x || DependsOn(e, x));
          if e != ds[0] {
            assert e in ds[1..];
          }
        }
      }
    }
  }

  /** Every command in `s` comes after all the commands it needs directly. */
  ghost predicate Ordered(s: seq<string>) {
    forall p, d :: 0 <= p < |s| && d in DirectDeps(s[p]) ==> d in s[..p]
  }

  lemma {:induction false} OrderedConcat(a: seq<string>, b: seq<string>)
    requires Ordered(a) && Ordered(b)
    ensures Ordered(a + b)
  {
    hide Dependencies, Rank;
    var s := a + b;
    forall p, d | 0 <= p < |s| && d in DirectDeps(s[p]) ensures d in s[..p] {
      if p < |a| {
        assert s[p] == a[p] && s[..p] == a[..p];
      } else {
        assert s[p] == b[p - |a|] && d in b[..p - |a|];
        assert s[..p] == a + b[..p - |a|];
      }
    }
  }

  /** get_dependencies lists every command after all the commands it needs. */
  lemma {:induction false} ExpansionOrdered(c: string)
    ensures Ordered(Expansion(c))
    decreases Rank(c), 1
  {
    hide Dependencies, Rank;
    var f := Front(c, DirectDeps(c));
    FrontOrdered(c, DirectDeps(c));
    FrontContents(c, DirectDeps(c));
    var s := f + [c];
    forall p, d | 0 <= p < |s| && d in DirectDeps(s[p]) ensures d in s[..p] {
      if p == |f| {
        assert s[..p] == f && s[p] == c;
      } else {
        assert s[p] == f[p] && s[..p] == f[..p];
      }
    }
  }

  lemma {:induction false} FrontOrdered(owner: string, ds: seq<string>)
    requires forall e :: e in ds ==> Rank(e) < Rank(owner)
    ensures Ordered(Front(owner, ds))
    decreases Rank(owner), 0, |ds|
  {
    hide Dependencies, Rank;
    if ds != [] {
      FrontOrdered(owner, ds[1..]);
      ExpansionOrdered(ds[0]);
      OrderedConcat(Front(owner, ds[1..]), Expansion(ds[0]));
    }
  }

  /** In an ordered list every command also comes after everything it needs indirectly. */
  lemma {:induction false} OrderedTransitive(s: seq<string>, p: nat, d: string)
    requires Ordered(s) && p < |s| && DependsOn(s[p], d)
    ensures d in s[..p]
    decreases p
  {
    hide Dependencies, Rank;
    var e :| e in DirectDeps(s[p]) && (e == d || DependsOn(e, d));
    assert e in s[..p];
    if e != d {
      var q :| 0 <= q < p && s[q] == e;
      OrderedTransitive(s, q, d);
      assert s[..q] <= s[..p];
    }
  }

  /** Recording a command whose direct needs have all run keeps each recorded command after its needs. */
  lemma {:induction false} AppendInOrder(v: seq<string>, from: nat, ex: string)
    requires forall p, d :: from <= p < |v| && d in DirectDeps(v[p]) ==> d in v[..p]
    requires forall d :: d in DirectDeps(ex) ==> d in v
    ensures forall p, d :: from <= p < |v + [ex]| && d in DirectDeps((v + [ex])[p]) ==> d in (v + [ex])[..p]
  {
    hide Dependencies, Rank;
    var w := v + [ex];
    forall p, d | from <= p < |w| && d in DirectDeps(w[p]) ensures d in w[..p] {
      if p < |v| {
        assert w[p] == v[p] && w[..p] == v[..p];
      } else {
        assert w[..p] == v;
      }
    }
  }

  /** `x` is a requested command or something one of them needs. */
  ghost predicate Needed(asked: seq<string>, x: string) {
    exists a :: a in asked && (x == a || DependsOn(a, x))
  }

  lemma NeededOf(asked: seq<string>, c: string, x: string)
    requires c in asked && (x == c || DependsOn(c, x))
    ensures Needed(asked, x)
  {
  }

  /** Appending a needed name keeps every entry from `from` on needed. */
  lemma NeededAppend(vs: seq<string>, from: nat, asked: seq<string>, x: string)
    requires forall p :: from <= p < |vs| ==> Needed(asked, vs[p])
    requires Needed(asked, x)
    ensures forall p :: from <= p < |vs + [x]| ==> Needed(asked, (vs + [x])[p])
  {
  }

  /** `NeededMore` for every entry of `vs` from position `from` on. */
  lemma NeededSuffix(vs: seq<string>, from: nat, asked: seq<string>, more: seq<string>)
    requires forall p :: from <= p < |vs| ==> Needed(asked, vs[p])
    ensures forall p :: from <= p < |vs| ==> Needed(asked + more, vs[p])
  {
    forall p | from <= p < |vs| ensures Needed(asked + more, vs[p]) {
      NeededMore(asked, more, vs[p]);
    }
  }

  /** Asking for more commands keeps everything needed before. */
  lemma NeededMore(asked: seq<string>, more: seq<string>, x: string)
    requires Needed(asked, x)
    ensures Needed(asked + more, x)
  {
    hide Dependencies, Rank;
    var a :| a in asked && (x == a || DependsOn(a, x));
    assert a in asked + more;
  }

  /** Every command the table names has a `cmd_` function. */
  lemma {:induction false} KnownDeps(c: string, d: string)
    requires DependsOn(c, d)
    ensures d in CommandNames()
    decreases Rank(c)
  {
    hide Rank;
    var e :| e in DirectDeps(c) && (e == d || DependsOn(e, d));
    assert e in CommandNames();
    if e != d {
      KnownDeps(e, d);
    }
  }

  /** Each command in the expansion of `c` has a `cmd_` function or is in `done`. */
  ghost predicate Runnable(c: string, done: seq<string>) {
    forall x :: (x == c || DependsOn(c, x)) ==> x in CommandNames() || x in done
  }

  lemma RunnableOf(c: string, deps: seq<string>, done: seq<string>)
    requires forall x :: x in deps <==> x == c || DependsOn(c, x)
    ensures Runnable(c, done) <==> forall x :: x in deps ==> x in CommandNames() || x in done
  {
  }

  /** A command with a `cmd_` function can always be run in full. */
  lemma KnownRunnable(c: string, done: seq<string>)
    requires c in CommandNames()
    ensures Runnable(c, done)
  {
    forall x | DependsOn(c, x) ensures x in CommandNames() {
      KnownDeps(c, x);
    }
  }

  /** No command appears twice. */
  predicate Distinct(s: seq<string>) {
    forall p, q :: 0 <= p < q < |s| ==> s[p] != s[q]
  }

  lemma DistinctAppend(s: seq<string>, x: string)
    requires Distinct(s) && x !in s
    ensures Distinct(s + [x])
  {
  }

  /** The run-wide record of the commands already executed, in execution order. */
  class Runner {
    var visited: seq<string>

    constructor ()
      ensures visited == []
    {
      visited := [];
    }

    /**
     * run_commands: for each requested command, go through its expansion and
     * run every command not yet visited, recording it. A name without a
     * `cmd_` function raises KeyError there: `ok` is false and nothing more
     * runs, which happens exactly when some requested command's expansion
     * holds such a name that had not run before. Otherwise each requested
     * command and everything it needs has run. In both cases nothing that
     * had run runs again; only commands with a `cmd_` function run; what
     * ran is a requested command or something one needs; and each command
     * ran after everything it needs directly.
     */
    method RunCommands(commands: seq<string>) returns (ok: bool)
      modifies this
      ensures |old(visited)| <= |visited| && visited[..|old(visited)|] == old(visited)
      ensures forall p :: |old(visited)| <= p < |visited| ==> visited[p] !in old(visited)
      ensures forall p :: |old(visited)| <= p < |visited| ==> visited[p] in CommandNames()
      ensures Distinct(old(visited)) ==> Distinct(visited)
      ensures ok <==> forall c :: c in commands ==> Runnable(c, old(visited))
      ensures ok ==> forall c :: c in commands ==> c in visited && forall d :: DependsOn(c, d) ==> d in visited
      ensures forall p :: |old(visited)| <= p < |visited| ==> Needed(commands, visited[p])
      ensures forall p, d :: |old(visited)| <= p < |visited| && d in DirectDeps(visited[p]) ==> d in visited[..p]
    {
      hide Dependencies, Rank, Runnable, Needed, Distinct;
      ghost var start := visited;
      ok := true;
      for i := 0 to |commands|
        invariant |start| <= |visited| && visited[..|start|] == start
        invariant forall p :: |start| <= p < |visited| ==> visited[p] !in start
        invariant forall p :: |start| <= p < |visited| ==> visited[p] in CommandNames()
        invariant Distinct(start) ==> Distinct(visited)
        invariant forall c :: c in commands[..i] ==> Runnable(c, start)
        invariant forall c :: c in commands[..i] ==> c in visited && forall d :: DependsOn(c, d) ==> d in visited
        invariant forall p :: |start| <= p < |visited| ==> Needed(commands[..i], visited[p])
        invariant forall p, d :: |start| <= p < |visited| && d in DirectDeps(visited[p]) ==> d in visited[..p]
      {
        var deps := GetDependencies(commands[i]);
        ExpansionContents(commands[i]);
        ExpansionOrdered(commands[i]);
        assert commands[..i + 1] == commands[..i] + [commands[i]];
        NeededSuffix(visited, |start|, commands[..i], [commands[i]]);
        ok := RunAll(deps, commands[..i + 1], commands[i], start);
        RunnableOf(commands[i], deps, start);
        if !ok {
          assert commands[..i + 1] + commands[i + 1..] == commands;
          NeededSuffix(visited, |start|, commands[..i + 1], commands[i + 1..]);
          return;
        }
      }
      assert commands[..|commands|] == commands;
    }

    /**
     * The inner loop of run_commands over one expansion; `ok` is false when
     * it stopped at a name without a `cmd_` function that had not run.
     */
    method RunAll(deps: seq<string>, ghost asked: seq<string>, ghost c: string, ghost start: seq<string>) returns (ok: bool)
      requires Ordered(deps) && c in asked
      requires forall x :: x in deps <==> x == c || DependsOn(c, x)
      requires |start| <= |visited| && visited[..|start|] == start
      requires forall p :: |start| <= p < |visited| ==> visited[p] !in start
      requires forall p :: |start| <= p < |visited| ==> visited[p] in CommandNames()
      requires forall p :: |start| <= p < |visited| ==> Needed(asked, visited[p])
      requires forall p, d :: |start| <= p < |visited| && d in DirectDeps(visited[p]) ==> d in visited[..p]
      modifies this
      ensures |old(visited)| <= |visited| && visited[..|old(visited)|] == old(visited)
      ensures |start| <= |visited| && visited[..|start|] == start
      ensures forall p :: |start| <= p < |visited| ==> visited[p] !in start
      ensures forall p :: |start| <= p < |visited| ==> visited[p] in CommandNames()
      ensures forall p :: |old(visited)| <= p < |visited| ==> visited[p] !in old(visited)
      ensures Distinct(old(visited)) ==> Distinct(visited)
      ensures ok ==> forall x :: x in deps ==> x in visited
      ensures ok <==> forall x :: x in deps ==> x in CommandNames() || x in start
      ensures forall p :: |start| <= p < |visited| ==> Needed(asked, visited[p])
      ensures forall p, d :: |start| <= p < |visited| && d in DirectDeps(visited[p]) ==> d in visited[..p]
    {
      hide Dependencies, Rank, Distinct, Needed;
      ghost var before := visited;
      for j := 0 to |deps|
        invariant |before| <= |visited| && visited[..|before|] == before
        invariant forall p :: |before| <= p < |visited| ==> visited[p] !in before
        invariant forall p :: |start| <= p < |visited| ==> visited[p] in CommandNames()
        invariant Distinct(before) ==> Distinct(visited)
        invariant forall x :: x in deps[..j] ==> x in visited
        invariant forall p :: |start| <= p < |visited| ==> Needed(asked, visited[p])
        invariant forall p, d :: |start| <= p < |visited| && d in DirectDeps(visited[p]) ==> d in visited[..p]
      {
        var ex := deps[j];
        assert deps[..j + 1] == deps[..j] + [ex];
        if ex !in visited {
          if ex !in CommandNames() {
            assert ex !in start;
            return false;
          }
          forall d | d in DirectDeps(ex) ensures d in visited {
            assert d in deps[..j];
          }
          AppendInOrder(visited, |start|, ex);
          assert ex in deps;
          NeededOf(asked, c, ex);
          NeededAppend(visited, |start|, asked, ex);
          if Distinct(visited) {
            DistinctAppend(visited, ex);
          }
          visited := visited + [ex];
        }
      }
      assert deps[..|deps|] == deps;
      ok := true;
      forall x | x in deps ensures x in CommandNames() || x in start {
        var p :| 0 <= p < |visited| && visited[p] == x;
        if p >= |start| {
          assert visited[p] in CommandNames();
        } else {
          assert visited[..|start|][p] == x;
        }
      }
    }
  }

  /** The string with every space removed. */
  function RemoveSpaces(s: string): (r: string)
    ensures ' ' !in r
    ensures forall ch :: ch != ' ' ==> (ch in r <==> ch in s)
    ensures |r| <= |s|
  {
    if s == [] then []
    else (if s[0] == ' ' then [] else [s[0]]) + RemoveSpaces(s[1..])
  }

  /** `str.split(sep)`: the pieces between separators; there is always at least one. */
  function Split(s: string, sep: char): (r: seq<string>)
    ensures |r| >= 1
    ensures forall k :: 0 <= k < |r| ==> sep !in r[k]
  {
    if s == [] then [[]]
    else
      var rest := Split(s[1..], sep);
      if s[0] == sep then [[]] + rest else [[s[0]] + rest[0]] + rest[1..]
  }

  /** Joining the pieces of a split gives back the string. */
  lemma {:induction false} JoinSplit(s: string, sep: char)
    ensures PhpAst.Join(Split(s, sep), [sep]) == s
    decreases |s|
  {
    if s != [] {
      JoinSplit(s[1..], sep);
      var rest := Split(s[1..], sep);
      if s[0] == sep {
        assert PhpAst.Join([[]] + rest, [sep]) == [] + [sep] + PhpAst.Join(rest, [sep]) by {
          assert ([[]] + rest)[1..] == rest;
        }
      } else {
        var r := [[s[0]] + rest[0]] + rest[1..];
        if |rest| == 1 {
          assert r == [[s[0]] + rest[0]];
        } else {
          assert r[1..] == rest[1..];
          assert PhpAst.Join(rest, [sep]) == rest[0] + [sep] + PhpAst.Join(rest[1..], [sep]);
        }
      }
    }
  }

  /**
   * The command list of main: `None` when there is no argument (the help
   * text is printed and the program exits); otherwise the first argument
   * without spaces, split at every comma.
   */
  function CommandList(args: seq<string>): (r: Option<seq<string>>)
    ensures r.None? <==> args == []
    ensures r.Some? ==> |r.value| >= 1 && PhpAst.Join(r.value, ",") == RemoveSpaces(args[0])
    ensures r.Some? ==> forall k :: 0 <= k < |r.value| ==> ' ' !in r.value[k] && ',' !in r.value[k]
  {
    if args == [] then None
    else
      var line := RemoveSpaces(args[0]);
      JoinSplit(line, ',');
      SplitChars(line, ',');
      Some(Split(line, ','))
  }

  /** Every character of a piece comes from the string. */
  lemma {:induction false} SplitChars(s: string, sep: char)
    ensures forall k, ch :: 0 <= k < |Split(s, sep)| && ch in Split(s, sep)[k] ==> ch in s
    decreases |s|
  {
    if s != [] {
      SplitChars(s[1..], sep);
      var rest := Split(s[1..], sep);
      assert forall ch :: ch in s[1..] ==> ch in s;
      if s[0] != sep {
        assert forall ch :: ch in [s[0]] + rest[0] ==> ch == s[0] || ch in rest[0];
      }
    }
  }
}
