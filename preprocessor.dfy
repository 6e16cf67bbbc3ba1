/**
 * The include preprocessor (extraction/preprocessor.py). A file's text, with
 * its trailing whitespace removed, is cut into lines. A line holding an
 * `include`/`require` call whose argument names a project file not yet
 * included is replaced by that file's own preprocessed lines, with its
 * open and close tags dropped; every other line is kept and tagged with its
 * file and 1-based line number.
 *
 * The file system is a parameter: `files` maps a path to its text. The
 * source decodes every file as Latin-1, so no character is above U+00FF,
 * and on that range the case-insensitive patterns fold exactly the ASCII
 * letters.
 */
module Preprocessing {
  import opened Wrappers
  import opened CodeNodes

  /** An output line: its text and where it came from. */
  datatype Line = Line(file: string, lineNo: nat, text: string)

  /** `str.isspace`, which is also the regular-expression class `\s`. */
  predicate IsSpace(c: char) {
    c == ' ' || ('\t' <= c <= '\r') || ('\U{1c}' <= c <= '\U{1f}') || c == '\U{85}' || c == '\U{a0}' ||
    c == '\U{1680}' || ('\U{2000}' <= c <= '\U{200a}') || c == '\U{2028}' || c == '\U{2029}' ||
    c == '\U{202f}' || c == '\U{205f}' || c == '\U{3000}'
  }

  /** `s.rstrip()`: the longest prefix of `s` not ending in whitespace, all of whose removed tail is whitespace. */
  function RStrip(s: string): (r: string)
    ensures r <= s
    ensures |r| == 0 || !IsSpace(r[|r| - 1])
    ensures forall k :: |r| <= k < |s| ==> IsSpace(s[k])
  {
    if |s| > 0 && IsSpace(s[|s| - 1]) then RStrip(s[..|s| - 1]) else s
  }

  /** The leading-whitespace half of `strip`. */
  function LStrip(s: string): (r: string)
    ensures |r| <= |s| && r == s[|s| - |r|..]
    ensures |r| == 0 || !IsSpace(r[0])
    ensures forall k :: 0 <= k < |s| - |r| ==> IsSpace(s[k])
  {
    if |s| > 0 && IsSpace(s[0]) then LStrip(s[1..]) else s
  }

  /** `s.replace(c, "")`. */
  function Without(s: string, c: char): (r: string)
    ensures c !in r
    ensures forall x :: x != c ==> (x in r <==> x in s)
  {
    if |s| == 0 then "" else (if s[0] == c then "" else [s[0]]) + Without(s[1..], c)
  }

  /** The file name `parse_file_name` searches for: quotes removed, then stripped. */
  function Clean(s: string): (r: string)
    ensures '"' !in r && '\'' !in r
    ensures |r| == 0 || (!IsSpace(r[0]) && !IsSpace(r[|r| - 1]))
  {
    LStrip(RStrip(Without(Without(s, '"'), '\'')))
  }

  /** The length of the first line of `s`, its `\n` included when it has one. */
  function LineLength(s: string): (k: nat)
    requires |s| > 0
    ensures 0 < k <= |s|
    ensures forall j :: 0 <= j < k - 1 ==> s[j] != '\n'
    ensures k < |s| ==> s[k - 1] == '\n'
  {
    if s[0] == '\n' || |s| == 1 then 1 else 1 + LineLength(s[1..])
  }

  /** `s.splitlines(True)` with `\n` as the only line break. */
  function Lines(s: string): (r: seq<string>)
    ensures Concat(r) == s
    ensures forall k :: 0 <= k < |r| ==> |r[k]| > 0 && forall j :: 0 <= j < |r[k]| - 1 ==> r[k][j] != '\n'
    ensures forall k :: 0 <= k < |r| - 1 ==> r[k][|r[k]| - 1] == '\n'
    decreases |s|
  {
    if |s| == 0 then [] else
      var k := LineLength(s);
      assert s == s[..k] + s[k..];
      [s[..k]] + Lines(s[k..])
  }

  function Concat(ls: seq<string>): string {
    if |ls| == 0 then "" else ls[0] + Concat(ls[1..])
  }

  /** The text of the output lines, one after the other. */
  function Text(out: seq<Line>): string {
    if |out| == 0 then "" else out[0].text + Text(out[1..])
  }

  lemma {:induction false} TextAppend(a: seq<Line>, b: seq<Line>)
    ensures Text(a + b) == Text(a) + Text(b)
  {
    if |a| > 0 {
      calc {
        Text(a + b);
        (a + b)[0].text + Text((a + b)[1..]);
        { assert (a + b)[0] == a[0] && (a + b)[1..] == a[1..] + b; }
        a[0].text + Text(a[1..] + b);
        { TextAppend(a[1..], b); }
        a[0].text + (Text(a[1..]) + Text(b));
        (a[0].text + Text(a[1..])) + Text(b);
      }
    } else {
      assert a + b == b;
    }
  }

  /* ---- the three regular expressions ---- */

  /** ASCII case folding, which is all `re.IGNORECASE` does on Latin-1 text. */
  function Lower(c: char): (r: char)
    ensures 'A' <= c <= 'Z' ==> r as int == c as int + 32
    ensures !('A' <= c <= 'Z') ==> r == c
  {
    if 'A' <= c <= 'Z' then (c as int + 32) as char else c
  }

  /** The lower-case word `w` occurs at `p` of `line`, ignoring case. */
  predicate WordAt(line: string, p: nat, w: string) {
    p + |w| <= |line| && forall k :: 0 <= k < |w| ==> Lower(line[p + k]) == w[k]
  }

  /** The first `)` at or after `i`, or `|line|`. */
  function CloseParen(line: string, i: nat): (q: nat)
    requires i <= |line|
    ensures i <= q <= |line|
    ensures q < |line| ==> line[q] == ')'
    ensures forall k :: i <= k < q ==> line[k] != ')'
    decreases |line| - i
  {
    if i == |line| || line[i] == ')' then i else CloseParen(line, i + 1)
  }

  /** `kw\(([^)]+)\)` matched at `p`: the text between the parenthesis and the first `)`, when it is not empty. */
  function CallAt(line: string, p: nat, kw: string): (r: Option<string>)
    ensures r.Some? <==> WordAt(line, p, kw + "(") && p + |kw| + 1 < CloseParen(line, p + |kw| + 1) < |line|
    ensures r.Some? ==> |r.value| > 0 && ')' !in r.value && r.value == line[p + |kw| + 1..CloseParen(line, p + |kw| + 1)]
  {
    if WordAt(line, p, kw + "(") then
      var start := p + |kw| + 1;
      var q := CloseParen(line, start);
      if start < q < |line| then Some(line[start..q]) else None
    else None
  }

  /** The include pattern matched at `p`, its alternatives tried in order. */
  function MatchAt(line: string, p: nat): Option<string> {
    var a := CallAt(line, p, "include");
    if a.Some? then a else
    var b := CallAt(line, p, "include_once");
    if b.Some? then b else
    var c := CallAt(line, p, "require");
    if c.Some? then c else
    CallAt(line, p, "require_once")
  }

  /** The leftmost match of the include pattern at or after `p`. */
  function IncludeArgFrom(line: string, p: nat): Option<string>
    decreases |line| - p
  {
    if p >= |line| then None
    else if MatchAt(line, p).Some? then MatchAt(line, p)
    else IncludeArgFrom(line, p + 1)
  }

  /** `re_include.search(line).group(2)`: the argument of the leftmost include or require call, if any. */
  function IncludeArg(line: string): Option<string> {
    IncludeArgFrom(line, 0)
  }

  /** The search from `p` finds nothing exactly when nothing matches at or after `p`, and otherwise the leftmost match. */
  lemma {:induction false} IncludeArgFromLeftmost(line: string, p: nat)
    ensures var r := IncludeArgFrom(line, p);
            (r.None? <==> forall q :: p <= q < |line| ==> MatchAt(line, q).None?) &&
            (r.Some? ==> exists q :: p <= q < |line| && MatchAt(line, q) == r &&
                           forall q' :: p <= q' < q ==> MatchAt(line, q').None?)
    decreases |line| - p
  {
    hide MatchAt;
    if p < |line| && MatchAt(line, p).None? {
      IncludeArgFromLeftmost(line, p + 1);
      var r := IncludeArgFrom(line, p + 1);
      if r.Some? {
        var q :| p + 1 <= q < |line| && MatchAt(line, q) == r &&
                 forall q' :: p + 1 <= q' < q ==> MatchAt(line, q').None?;
        assert forall q' :: p <= q' < q ==> MatchAt(line, q').None?;
      }
    }
  }

  /** `re.search` semantics: no argument exactly when no call matches anywhere, otherwise the argument of the leftmost call. */
  lemma IncludeArgLeftmost(line: string)
    ensures var r := IncludeArg(line);
            (r.None? <==> forall q :: 0 <= q < |line| ==> MatchAt(line, q).None?) &&
            (r.Some? ==> exists q :: 0 <= q < |line| && MatchAt(line, q) == r &&
                           forall q' :: 0 <= q' < q ==> MatchAt(line, q').None?)
  {
    IncludeArgFromLeftmost(line, 0);
  }

  /** The two tag patterns a preprocessed file's first and last lines are searched for. */
  datatype Tag = StartTag | EndTag

  /**
   * `tag` matches at position `p` of `line`: `<\?php[\r\n\s]` ignoring case
   * (the `<?php` opener followed by one whitespace character), or `\?>`.
   */
  predicate TagAt(tag: Tag, line: string, p: nat) {
    match tag
    case StartTag => WordAt(line, p, "<?php") && p + 5 < |line| && IsSpace(line[p + 5])
    case EndTag => p + 1 < |line| && line[p] == '?' && line[p + 1] == '>'
  }

  /** `re.search(tag, line[p:])`: the leftmost position at or after `p` where `tag` matches, if any. */
  function SearchTag(tag: Tag, line: string, p: nat): (r: Option<nat>)
    requires p <= |line|
    ensures r.None? <==> forall q :: p <= q < |line| ==> !TagAt(tag, line, q)
    ensures r.Some? ==> p <= r.value < |line| && TagAt(tag, line, r.value) &&
                        forall q :: p <= q < r.value ==> !TagAt(tag, line, q)
    decreases |line| - p
  {
    if p == |line| then None
    else if TagAt(tag, line, p) then Some(p)
    else SearchTag(tag, line, p + 1)
  }

  /** `re_start_tag.search(line)` is truthy. */
  predicate HasStartTag(line: string) {
    SearchTag(StartTag, line, 0).Some?
  }

  /** `re_end_tag.search(line)` is truthy. */
  predicate HasEndTag(line: string) {
    SearchTag(EndTag, line, 0).Some?
  }

  /** Inside an included file, the first line when it opens a PHP block and the last when it closes one are dropped. */
  predicate Dropped(lines: seq<string>, i: nat, ignoreTags: bool)
    requires i < |lines|
  {
    ignoreTags && ((i == 0 && HasStartTag(lines[i])) || (i == |lines| - 1 && HasEndTag(lines[i])))
  }

  /* ---- resolving a file name ---- */

  /** `proj` is `fn` itself, or ends in `\fn` or `/fn`. */
  predicate Names(proj: string, fn: string) {
    proj == fn || EndsWith(proj, "\\" + fn) || EndsWith(proj, "/" + fn)
  }

  /** `s.endswith(t)`. */
  predicate EndsWith(s: string, t: string) {
    |t| <= |s| && s[|s| - |t|..] == t
  }

  predicate Candidate(proj: string, included: seq<string>, fn: string) {
    proj !in included && Names(proj, fn)
  }

  function ResolveFrom(project: seq<string>, included: seq<string>, fn: string, j: nat): (r: Option<string>)
    requires j <= |project|
    ensures r.None? <==> forall k :: j <= k < |project| ==> !Candidate(project[k], included, fn)
    ensures r.Some? ==> exists k :: j <= k < |project| && project[k] == r.value && Candidate(r.value, included, fn) &&
                          forall k' :: j <= k' < k ==> !Candidate(project[k'], included, fn)
    decreases |project| - j
  {
    if j == |project| then None
    else if Candidate(project[j], included, fn) then Some(project[j])
    else ResolveFrom(project, included, fn, j + 1)
  }

  /**
   * The project file `parse_file_name` picks for the name `fn`: the first, in
   * listing order, not yet included that is `fn` or ends in `/fn` or `\fn`.
   */
  function Resolve(project: seq<string>, included: seq<string>, fn: string): (r: Option<string>)
    ensures r.None? <==> forall k :: 0 <= k < |project| ==> !Candidate(project[k], included, fn)
    ensures r.Some? ==> r.value in project && r.value !in included && Names(r.value, fn)
    ensures r.Some? ==> exists k :: 0 <= k < |project| && project[k] == r.value &&
                          forall k' :: 0 <= k' < k ==> !Candidate(project[k'], included, fn)
  {
    ResolveFrom(project, included, fn, 0)
  }

  /* ---- the expansion ---- */

  predicate NoDup(s: seq<string>) {
    forall i, j :: 0 <= i < j < |s| ==> s[i] != s[j]
  }

  /** Every project file can be read, and the included ones are distinct project files. */
  ghost predicate Ok(project: seq<string>, files: map<string, string>, included: seq<string>) {
    (forall f :: f in project ==> f in files) && (forall f :: f in included ==> f in project) && NoDup(included)
  }

  /** The project files that may still be included. */
  function Pending(project: seq<string>, included: seq<string>): set<string> {
    set f | f in project && f !in included
  }

  /** Every output line is line `lineNo` (from 1) of the stripped text of its file. */
  ghost predicate Tagged(files: map<string, string>, out: seq<Line>) {
    forall e :: e in out ==>
      e.file in files && 1 <= e.lineNo <= |Lines(RStrip(files[e.file]))| && e.text == Lines(RStrip(files[e.file]))[e.lineNo - 1]
  }

  lemma TaggedJoin(files: map<string, string>, a: seq<Line>, b: seq<Line>)
    requires Tagged(files, a) && Tagged(files, b)
    ensures Tagged(files, a + b)
  {
    forall e | e in a + b ensures e in a || e in b {
    }
  }

  /** `included` grows by appending: nothing already included is removed or reordered. */
  ghost predicate Grows(before: seq<string>, after: seq<string>) {
    |before| <= |after| && after[..|before|] == before
  }

  lemma GrowsTrans(a: seq<string>, b: seq<string>, c: seq<string>)
    requires Grows(a, b) && Grows(b, c)
    ensures Grows(a, c)
  {
    assert c[..|a|] == c[..|b|][..|a|];
  }

  lemma GrowsMembers(a: seq<string>, b: seq<string>)
    requires Grows(a, b)
    ensures forall f :: f in a ==> f in b
  {
    forall f | f in a ensures f in b {
      var i :| 0 <= i < |a| && a[i] == f;
      assert b[i] == a[i];
    }
  }

  /**
   * `_preprocess_file(file, ignore_tags)` with `included` files so far: the
   * output lines and the included files afterwards.
   */
  ghost function ExpandFile(project: seq<string>, files: map<string, string>, file: string, ignoreTags: bool,
                            included: seq<string>): (r: (seq<Line>, seq<string>))
    requires Ok(project, files, included) && file in files
    ensures Ok(project, files, r.1) && Grows(included, r.1) && Tagged(files, r.0)
    decreases Pending(project, included), 1
  {
    ExpandLines(project, files, file, Lines(RStrip(files[file])), 0, ignoreTags, included)
  }

  /** The loop of `_preprocess_file` from line index `i` on. */
  ghost function ExpandLines(project: seq<string>, files: map<string, string>, file: string, lines: seq<string>,
                             i: nat, ignoreTags: bool, included: seq<string>): (r: (seq<Line>, seq<string>))
    requires Ok(project, files, included) && file in files && lines == Lines(RStrip(files[file])) && i <= |lines|
    ensures Ok(project, files, r.1) && Grows(included, r.1) && Tagged(files, r.0)
    decreases Pending(project, included), 0, |lines| - i
  {
    hide IncludeArg, Clean, Dropped, Lines, RStrip, Ok, Grows, Tagged, Pending;
    if i == |lines| then
      GrowsRefl(included);
      ([], included)
    else if Dropped(lines, i, ignoreTags) then ExpandLines(project, files, file, lines, i + 1, ignoreTags, included)
    else
      var arg := IncludeArg(lines[i]);
      var fn := if arg.Some? then Resolve(project, included, Clean(arg.value)) else None;
      if fn.None? then
        var rest := ExpandLines(project, files, file, lines, i + 1, ignoreTags, included);
        TaggedLine(files, file, lines, i);
        TaggedJoin(files, [Line(file, i + 1, lines[i])], rest.0);
        ([Line(file, i + 1, lines[i])] + rest.0, rest.1)
      else
        var more := included + [fn.value];
        IncludeOne(project, files, included, fn.value);
        var sub := ExpandFile(project, files, fn.value, true, more);
        PendingShrinks(project, more, sub.1);
        var rest := ExpandLines(project, files, file, lines, i + 1, ignoreTags, sub.1);
        GrowsTrans(included, more, sub.1);
        GrowsTrans(included, sub.1, rest.1);
        TaggedJoin(files, sub.0, rest.0);
        (sub.0 + rest.0, rest.1)
  }

  lemma GrowsRefl(a: seq<string>)
    ensures Grows(a, a)
  {
  }

  /** Including one more project file keeps the included list well formed and leaves fewer files pending. */
  lemma IncludeOne(project: seq<string>, files: map<string, string>, included: seq<string>, f: string)
    requires Ok(project, files, included) && f in project && f !in included
    ensures Ok(project, files, included + [f]) && Grows(included, included + [f])
    ensures Pending(project, included + [f]) < Pending(project, included)
  {
    assert f in Pending(project, included) && f !in Pending(project, included + [f]);
  }

  /** A grown included list leaves no more files pending. */
  lemma PendingShrinks(project: seq<string>, a: seq<string>, b: seq<string>)
    requires Grows(a, b)
    ensures Pending(project, b) <= Pending(project, a)
  {
    GrowsMembers(a, b);
  }

  /** One line of a file, numbered from 1, is tagged with its file. */
  lemma TaggedLine(files: map<string, string>, file: string, lines: seq<string>, i: nat)
    requires file in files && lines == Lines(RStrip(files[file])) && i < |lines|
    ensures Tagged(files, [Line(file, i + 1, lines[i])])
  {
  }

  /** A line that is dropped, or holds no include that resolves, expands to at most itself. */
  ghost predicate Plain(project: seq<string>, included: seq<string>, line: string) {
    var arg := IncludeArg(line);
    arg.None? || Resolve(project, included, Clean(arg.value)).None?
  }

  /**
   * When no line of a top-level file includes anything that resolves (no
   * include at all, or only unresolved ones), its output is its own text
   * with trailing whitespace removed, and nothing gets included.
   */
  lemma {:induction false} VerbatimWithoutIncludes(project: seq<string>, files: map<string, string>, file: string,
                                                   included: seq<string>)
    requires Ok(project, files, included) && file in files
    requires forall line :: line in Lines(RStrip(files[file])) ==> Plain(project, included, line)
    ensures Text(ExpandFile(project, files, file, false, included).0) == RStrip(files[file])
    ensures ExpandFile(project, files, file, false, included).1 == included
  {
    var lines := Lines(RStrip(files[file]));
    VerbatimFrom(project, files, file, lines, 0, included);
    assert lines[0..] == lines;
  }

  lemma {:induction false} VerbatimFrom(project: seq<string>, files: map<string, string>, file: string, lines: seq<string>,
                                        i: nat, included: seq<string>)
    requires Ok(project, files, included) && file in files && lines == Lines(RStrip(files[file])) && i <= |lines|
    requires forall line :: line in lines ==> Plain(project, included, line)
    ensures Text(ExpandLines(project, files, file, lines, i, false, included).0) == Concat(lines[i..])
    ensures ExpandLines(project, files, file, lines, i, false, included).1 == included
    decreases |lines| - i
  {
    if i < |lines| {
      assert lines[i] in lines;
      VerbatimFrom(project, files, file, lines, i + 1, included);
      assert lines[i..][1..] == lines[i + 1..];
    }
  }

  /* ---- the class ---- */

  /** `Preprocessor(path)`: the project's files, listed once, and the ones included so far. */
  class Preprocessor {
    const projectFiles: seq<string>
    const files: map<string, string>
    var includedFiles: seq<string>

    ghost predicate Valid()
      reads this
    {
      Ok(projectFiles, files, includedFiles)
    }

    /** The file list stands for `PathCache.get_path_files(path)`; every listed file can be read. */
    constructor (project: seq<string>, fs: map<string, string>)
      requires forall f :: f in project ==> f in fs
      ensures Valid()
      ensures projectFiles == project && files == fs && includedFiles == []
    {
      projectFiles := project;
      files := fs;
      includedFiles := [];
    }

    /**
     * parse_file_name: the first project file, in listing order, that is not
     * yet included and is the cleaned name or ends in `/name` or `\name`. It
     * is recorded as included, so it is returned at most once until
     * `ResetIncludedFiles`.
     */
    method ParseFileName(s: string) returns (r: Option<string>)
      requires Valid()
      modifies this`includedFiles
      ensures Valid()
      ensures r == Resolve(projectFiles, old(includedFiles), Clean(s))
      ensures r.Some? ==> includedFiles == old(includedFiles) + [r.value]
      ensures r.None? ==> includedFiles == old(includedFiles)
    {
      hide EndsWith, Clean;
      var fn := Clean(s);
      for j := 0 to |projectFiles|
        invariant includedFiles == old(includedFiles)
        invariant ResolveFrom(projectFiles, includedFiles, fn, j) == Resolve(projectFiles, includedFiles, fn)
      {
        var proj := projectFiles[j];
        if proj !in includedFiles && Names(proj, fn) {
          includedFiles := includedFiles + [proj];
          return Some(proj);
        }
      }
      return None;
    }

    /**
     * _preprocess_file: the line loop, recursing into each file an include
     * resolves to. The result and the new included list are `ExpandFile`.
     */
    method PreprocessLines(file: string, ignoreTags: bool) returns (out: seq<Line>)
      requires Valid() && file in files
      modifies this`includedFiles
      ensures Valid()
      ensures (out, includedFiles) == ExpandFile(projectFiles, files, file, ignoreTags, old(includedFiles))
      decreases Pending(projectFiles, includedFiles), 1
    {
      hide Lines, RStrip, IncludeArg, Resolve, Clean, Tagged, Dropped;
      var lines := Lines(RStrip(files[file]));
      out := [];
      assert out + ExpandLines(projectFiles, files, file, lines, 0, ignoreTags, includedFiles).0
          == ExpandLines(projectFiles, files, file, lines, 0, ignoreTags, includedFiles).0;
      for i := 0 to |lines|
        invariant Valid() && Grows(old(includedFiles), includedFiles)
        invariant Pending(projectFiles, includedFiles) <= Pending(projectFiles, old(includedFiles))
        invariant var rest := ExpandLines(projectFiles, files, file, lines, i, ignoreTags, includedFiles);
                  (out + rest.0, rest.1) == ExpandFile(projectFiles, files, file, ignoreTags, old(includedFiles))
      {
        ghost var before := includedFiles;
        var piece := PreprocessLine(file, lines, i, ignoreTags);
        ghost var rest := ExpandLines(projectFiles, files, file, lines, i + 1, ignoreTags, includedFiles);
        assert (out + piece) + rest.0 == out + (piece + rest.0);
        GrowsTrans(old(includedFiles), before, includedFiles);
        GrowsMembers(old(includedFiles), includedFiles);
        out := out + piece;
      }
      assert out + [] == out;
    }

    /** One pass of the line loop: line `i` dropped, kept, or replaced by the included file's lines. */
    method PreprocessLine(file: string, lines: seq<string>, i: nat, ignoreTags: bool) returns (piece: seq<Line>)
      requires Valid() && file in files && lines == Lines(RStrip(files[file])) && i < |lines|
      modifies this`includedFiles
      ensures Valid() && Grows(old(includedFiles), includedFiles)
      ensures var rest := ExpandLines(projectFiles, files, file, lines, i + 1, ignoreTags, includedFiles);
              (piece + rest.0, rest.1) == ExpandLines(projectFiles, files, file, lines, i, ignoreTags, old(includedFiles))
      decreases Pending(projectFiles, includedFiles), 0
    {
      hide Lines, RStrip, IncludeArg, Resolve, Clean, Tagged, Dropped, ExpandFile;
      var line := lines[i];
      if Dropped(lines, i, ignoreTags) {
        assert [] + ExpandLines(projectFiles, files, file, lines, i + 1, ignoreTags, includedFiles).0
            == ExpandLines(projectFiles, files, file, lines, i + 1, ignoreTags, includedFiles).0;
        return [];
      }
      var m := IncludeArg(line);
      var fn: Option<string> := None;
      if m.Some? {
        fn := ParseFileName(m.value);
      }
      if fn.Some? {
        assert Pending(projectFiles, includedFiles) < Pending(projectFiles, old(includedFiles)) by {
          assert fn.value in Pending(projectFiles, old(includedFiles)) && fn.value !in Pending(projectFiles, includedFiles);
        }
        ghost var more := includedFiles;
        piece := PreprocessLines(fn.value, true);
        GrowsTrans(old(includedFiles), more, includedFiles);
      } else {
        piece := [Line(file, i + 1, line)];
      }
    }

    /**
     * preprocess_file: the line map, whose entry 0 is `(None, None)` and
     * entry k the origin of output line k, and the output text.
     */
    method PreprocessFile(file: string) returns (lineMap: seq<Loc>, output: string)
      requires Valid() && file in files
      modifies this`includedFiles
      ensures Valid()
      ensures var r := ExpandFile(projectFiles, files, file, false, old(includedFiles));
              includedFiles == r.1 && output == Text(r.0) &&
              |lineMap| == |r.0| + 1 && lineMap[0] == Loc(None, None) &&
              forall k :: 0 <= k < |r.0| ==> lineMap[k + 1] == Loc(Some(r.0[k].file), Some(r.0[k].lineNo))
    {
      hide ExpandFile, ExpandLines, Lines, RStrip, Tagged, Ok, Grows;
      var lines := PreprocessLines(file, false);
      ghost var included := includedFiles;
      lineMap := [Loc(None, None)];
      output := "";
      for k := 0 to |lines|
        invariant includedFiles == included
        invariant |lineMap| == k + 1 && lineMap[0] == Loc(None, None)
        invariant forall j :: 0 <= j < k ==> lineMap[j + 1] == Loc(Some(lines[j].file), Some(lines[j].lineNo))
        invariant output == Text(lines[..k])
      {
        TextAppend(lines[..k], [lines[k]]);
        assert lines[..k + 1] == lines[..k] + [lines[k]];
        lineMap := lineMap + [Loc(Some(lines[k].file), Some(lines[k].lineNo))];
        output := output + lines[k].text;
      }
      assert lines[..|lines|] == lines;
    }

    /** reset_included_files. */
    method ResetIncludedFiles()
      requires Valid()
      modifies this`includedFiles
      ensures Valid() && includedFiles == []
    {
      includedFiles := [];
    }
  }
}
