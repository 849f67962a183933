/**
  The auto-fix engine: the line-level fixer that comments out unused imports,
  and the AI fixer that splices a model's rewrite of a `def` or `class` into the
  file and rolls the whole file back when the result no longer parses.

  Files are read through `read` (`None` when the path is not a file) and parsed
  through `parse` (`None` on a syntax error); the AI is the function `ai`, which
  receives the smell and the node's current source. What each fixer writes is
  returned as a list of `(path, text)` writes in the order they happen.
 */
module Fixer {
  import opened Wrappers
  import opened Syntax
  import opened Traversal
  import opened Smells
  import opened Text
  import Detectors

  /** `AutoFix`: the record of one attempted fix. */
  datatype AutoFix = AutoFix(file: string, line: int, smellType: string, nodeName: string,
                             originalCode: string, fixedCode: string, applied: bool, reason: string)

  /** A write of `text` to the file at `path`. */
  datatype Write = Write(path: string, text: string)

  /** What a fixer returns, and what it wrote on the way. */
  datatype Outcome = Outcome(fixes: seq<AutoFix>, writes: seq<Write>)

  // ---------------------------------------------------------------------------
  // Python list slicing
  // ---------------------------------------------------------------------------

  /** A slice bound `i` resolved against a list of length `n`: negative bounds
      count from the end, and every bound is clamped into `0 .. n`. */
  function Bound(i: int, n: nat): (b: nat)
    ensures b <= n
    ensures 0 <= i <= n ==> b == i
  {
    if i < 0 then (if n + i < 0 then 0 else n + i) else if i > n then n else i
  }

  /** `s[i:j]`. */
  function Slice<T>(s: seq<T>, i: int, j: int): seq<T> {
    var a := Bound(i, |s|);
    var b := Bound(j, |s|);
    if a <= b then s[a..b] else []
  }

  // ---------------------------------------------------------------------------
  // Node source
  // ---------------------------------------------------------------------------

  /** `_get_node_source`: lines `line .. endLine` (1-based, inclusive) joined
      with newlines. */
  function NodeSource(lines: seq<string>, line: int, endLine: int): (r: string)
    ensures 1 <= line <= endLine <= |lines| && lines[endLine - 1] != ""
            && (forall i :: 0 <= i < |lines| ==> '\n' !in lines[i])
            ==> SplitLines(r) == lines[line - 1..endLine]
    ensures line > |lines| ==> r == ""
  {
    var r := Join("\n", Slice(lines, line - 1, endLine));
    assert 1 <= line <= endLine <= |lines| && lines[endLine - 1] != ""
           && (forall i :: 0 <= i < |lines| ==> '\n' !in lines[i])
           ==> SplitLines(r) == lines[line - 1..endLine] by {
      if 1 <= line <= endLine <= |lines| && lines[endLine - 1] != ""
         && (forall i :: 0 <= i < |lines| ==> '\n' !in lines[i]) {
        var span := lines[line - 1..endLine];
        assert span[|span| - 1] == lines[endLine - 1];
        SplitJoin(span);
      }
    }
    r
  }

  /** `_replace_node_source`: the lines before the node, the lines of `code`,
      then the lines after the node. */
  function ReplaceNodeSource(lines: seq<string>, line: int, endLine: int, code: string): (r: seq<string>)
    ensures 1 <= line && line - 1 <= endLine <= |lines| ==>
              var k := |SplitLines(code)|;
              && |r| == |lines| - (endLine - line + 1) + k
              && r[..line - 1] == lines[..line - 1]
              && r[line - 1..line - 1 + k] == SplitLines(code)
              && r[line - 1 + k..] == lines[endLine..]
  {
    lines[..Bound(line - 1, |lines|)] + SplitLines(code) + lines[Bound(endLine, |lines|)..]
  }

  /** Putting a node's own source back in its place changes nothing, as long as
      the node's last line is not blank. */
  lemma ReplaceWithOwnSource(lines: seq<string>, line: int, endLine: int)
    requires forall i :: 0 <= i < |lines| ==> '\n' !in lines[i]
    requires 1 <= line <= endLine <= |lines| && lines[endLine - 1] != ""
    ensures ReplaceNodeSource(lines, line, endLine, NodeSource(lines, line, endLine)) == lines
  {
    var src := NodeSource(lines, line, endLine);
    assert SplitLines(src) == lines[line - 1..endLine];
    ThreeParts(lines, line - 1, endLine);
  }

  lemma ThreeParts<T>(s: seq<T>, a: nat, b: nat)
    requires a <= b <= |s|
    ensures s[..a] + s[a..b] + s[b..] == s
  {
    assert s[..a] + s[a..b] == s[..b];
  }

  /** Node positions are taken from the tree parsed before any patch. When `p`
      ends with the lines of `lines` after position `from`, placed from `off`
      on, a node below `from` keeps its source in `p`, moved by `off - from`
      lines. `ReplaceNodeSource` with the `k` lines of `code` in place of lines
      `line .. endLine` yields exactly such a `p`, with `off == line - 1 + k`
      and `from == endLine` (its last ensures clause): every later node moves by
      `k - (endLine - line + 1)` lines, so a lookup at its old position reads
      the lines that are now there instead whenever that count is not zero. */
  lemma ShiftedSource(p: seq<string>, lines: seq<string>, off: nat, from: nat, line: int, endLine: int)
    requires off <= |p| && from < line <= endLine <= |lines| && p[off..] == lines[from..]
    ensures NodeSource(p, off + line - from, off + endLine - from) == NodeSource(lines, line, endLine)
  {
    var a, b := off + line - from, off + endLine - from;
    ShiftedSpan(p, lines, off, from, line - 1, endLine);
    assert p[a - 1..b] == lines[line - 1..endLine];
    SameSpanSameSource(p, a, b, lines, line, endLine);
  }

  lemma ShiftedSpan<T>(p: seq<T>, s: seq<T>, off: nat, from: nat, a: nat, b: nat)
    requires off <= |p| && from <= a <= b <= |s| && p[off..] == s[from..]
    ensures off + b - from <= |p|
    ensures p[off + a - from..off + b - from] == s[a..b]
  {
    var q := p[off..];
    assert |q| == |s| - from;
    assert p[off + a - from..off + b - from] == q[a - from..b - from];
    var t := s[from..];
    assert forall i :: 0 <= i < b - a ==> t[a - from..b - from][i] == s[a..b][i];
  }

  /** Equal spans of lines give equal node sources. */
  lemma SameSpanSameSource(p: seq<string>, a: int, b: int, lines: seq<string>, l: int, e: int)
    requires 1 <= a <= b <= |p| && 1 <= l <= e <= |lines| && p[a - 1..b] == lines[l - 1..e]
    ensures NodeSource(p, a, b) == NodeSource(lines, l, e)
  {
    SliceInRange(p, a - 1, b);
    SliceInRange(lines, l - 1, e);
  }

  lemma SliceInRange<T>(s: seq<T>, i: int, j: int)
    requires 0 <= i <= j <= |s|
    ensures Slice(s, i, j) == s[i..j]
  {
  }

  /** One instance of the shift: the first of three lines is replaced by two,
      and the source of the third line's node, looked up at its old position,
      comes back as the old second line. */
  lemma StaleLineNumbers()
    ensures var patched := ReplaceNodeSource(["a", "b", "c"], 1, 1, "x\ny");
            && patched == ["x", "y", "b", "c"]
            && NodeSource(patched, 3, 3) == "b"
  {
    var code := "x\ny";
    assert IndexOf(code, '\n') == 1;
    assert code[..1] == "x" && code[2..] == "y";
    assert IndexOf("y", '\n') == -1;
    assert SplitLines("y") == ["y"];
    assert SplitLines(code) == ["x", "y"];
    var patched := ReplaceNodeSource(["a", "b", "c"], 1, 1, code);
    assert patched == ["x", "y", "b", "c"];
    assert Slice(patched, 2, 3) == ["b"];
  }

  // ---------------------------------------------------------------------------
  // Target search
  // ---------------------------------------------------------------------------

  /** A `def`, `async def` or `class`. */
  predicate IsDefinition(n: Node) {
    n.StmtNode? && (n.stmt.FunctionDef? || n.stmt.ClassDef?)
  }

  /** A definition the smell can point at: the same name unless the smell's
      name is empty, and within five lines of the smell. */
  predicate Matches(n: Node, s: Smell) {
    && IsDefinition(n)
    && (s.nodeName == "" || n.stmt.name == s.nodeName)
    && -5 <= n.stmt.line - s.line <= 5
  }

  function FirstMatch(ns: seq<Node>, s: Smell): (r: Option<Stmt>)
    ensures r.None? <==> forall i :: 0 <= i < |ns| ==> !Matches(ns[i], s)
    ensures r.Some? ==>
              && (r.value.FunctionDef? || r.value.ClassDef?)
              && exists k :: 0 <= k < |ns| && ns[k] == StmtNode(r.value) && Matches(ns[k], s)
                             && forall j :: 0 <= j < k ==> !Matches(ns[j], s)
  {
    if ns == [] then None
    else if Matches(ns[0], s) then Some(ns[0].stmt)
    else
      var r := FirstMatch(ns[1..], s);
      assert r.None? ==> forall i :: 0 <= i < |ns| ==> !Matches(ns[i], s) by {
        if r.None? {
          forall i | 0 <= i < |ns|
            ensures !Matches(ns[i], s)
          {
            if i > 0 {
              assert ns[i] == ns[1..][i - 1];
            }
          }
        }
      }
      assert r.Some? ==> exists k :: 0 <= k < |ns| && ns[k] == StmtNode(r.value) && Matches(ns[k], s)
                                     && forall j :: 0 <= j < k ==> !Matches(ns[j], s) by {
        if r.Some? {
          var k :| 0 <= k < |ns[1..]| && ns[1..][k] == StmtNode(r.value) && Matches(ns[1..][k], s)
                   && forall j :: 0 <= j < k ==> !Matches(ns[1..][j], s);
          assert ns[k + 1] == StmtNode(r.value);
          forall j | 0 <= j < k + 1
            ensures !Matches(ns[j], s)
          {
            if j > 0 {
              assert ns[j] == ns[1..][j - 1];
            }
          }
        }
      }
      r
  }

  /** `_find_target_node`: the first matching definition in walk order. */
  function FindTarget(tree: Module, s: Smell): (r: Option<Stmt>)
    ensures r.Some? ==> r.value.FunctionDef? || r.value.ClassDef?
  {
    FirstMatch(Detectors.Nodes(tree), s)
  }

  // ---------------------------------------------------------------------------
  // Grouping smells by file
  // ---------------------------------------------------------------------------

  function FileNames(smells: seq<Smell>): (r: seq<string>)
    ensures |r| == |smells|
    ensures forall i :: 0 <= i < |smells| ==> r[i] == smells[i].file
  {
    seq(|smells|, i requires 0 <= i < |smells| => smells[i].file)
  }

  /** The keys of `smells_by_file`: each file once, in order of first mention. */
  function FilesOf(smells: seq<Smell>): (r: seq<string>)
    ensures Detectors.Distinct(r)
    ensures forall f :: f in r <==> exists s :: s in smells && s.file == f
  {
    var r := Detectors.Dedup(FileNames(smells));
    forall f
      ensures f in r <==> exists s :: s in smells && s.file == f
    {
      if f in FileNames(smells) {
        var i :| 0 <= i < |smells| && FileNames(smells)[i] == f;
        assert smells[i] in smells;
      }
      if exists s :: s in smells && s.file == f {
        var s :| s in smells && s.file == f;
        var i :| 0 <= i < |smells| && smells[i] == s;
        assert FileNames(smells)[i] == f;
      }
    }
    r
  }

  /** The smells of `file`, in their original order. */
  function SmellsIn(smells: seq<Smell>, file: string): (r: seq<Smell>)
    ensures forall s :: s in r <==> s in smells && s.file == file
  {
    if smells == [] then []
    else (if smells[0].file == file then [smells[0]] else []) + SmellsIn(smells[1..], file)
  }

  // ---------------------------------------------------------------------------
  // The line-level fixer
  // ---------------------------------------------------------------------------

  /** The comment line put in front of an unused import. */
  const Marker := "# AUTO-FIX: unused import\n"

  predicate Commented(line: string) {
    StartsWith(LStrip(line), "#")
  }

  /** A marked line counts as commented, so no line is ever marked twice. */
  lemma MarkedIsCommented(line: string)
    ensures Commented(Marker + line)
  {
    assert (Marker + line)[0] == '#';
    assert LStrip(Marker + line) == Marker + line;
  }

  /** The index of the line a smell points at: `max(0, line - 1)`. */
  function LineIndex(s: Smell): nat {
    if s.line - 1 < 0 then 0 else s.line - 1
  }

  /** A smell the line-level fixer acts on for line `i`. */
  predicate TargetsLine(s: Smell, i: int) {
    s.kind == UnusedImports && LineIndex(s) == i
  }

  /** The fixer's state within one file: the current lines and the fixes so far. */
  datatype LineState = LineState(lines: seq<string>, fixes: seq<AutoFix>)

  /** One smell of the loop in `apply_fixes`. */
  function CommentStep(file: string, p: LineState, s: Smell): LineState {
    if s.kind != UnusedImports then p
    else
      var idx := LineIndex(s);
      if idx >= |p.lines| then p
      else
        var orig := p.lines[idx];
        if Commented(orig) then
          LineState(p.lines, p.fixes + [AutoFix(file, s.line, s.kind.Tag(), s.nodeName, orig, orig, false,
                                           "Import already commented")])
        else
          LineState(p.lines[idx := Marker + orig],
               p.fixes + [AutoFix(file, s.line, s.kind.Tag(), s.nodeName, orig, Marker + orig, true,
                                  "Commented out unused import")])
  }

  function CommentOut(file: string, p: LineState, smells: seq<Smell>): LineState
    decreases |smells|
  {
    if smells == [] then p else CommentOut(file, CommentStep(file, p, smells[0]), smells[1..])
  }

  /** Number of smells the fixer records a fix for, given `n` lines. */
  function InRange(smells: seq<Smell>, n: nat): nat {
    if smells == [] then 0
    else (if smells[0].kind == UnusedImports && LineIndex(smells[0]) < n then 1 else 0) + InRange(smells[1..], n)
  }

  /** Every recorded fix of the line-level fixer is well formed: either the line
      was already a comment and stays as it was, or it gains the marker. */
  predicate GoodFix(file: string, fx: AutoFix) {
    && fx.file == file
    && fx.smellType == "unused_imports"
    && (if fx.applied
        then fx.fixedCode == Marker + fx.originalCode && fx.reason == "Commented out unused import"
        else fx.fixedCode == fx.originalCode && Commented(fx.originalCode)
             && fx.reason == "Import already commented")
  }

  /** Each line is either untouched or marked once, and it is marked exactly
      when it was not a comment and some unused-import smell points at it. */
  predicate MarkedFrom(orig: seq<string>, now: seq<string>, smells: seq<Smell>) {
    && |now| == |orig|
    && forall i :: 0 <= i < |orig| ==>
         && (now[i] == orig[i] || now[i] == Marker + orig[i])
         && (now[i] != orig[i] <==> !Commented(orig[i]) && exists s :: s in smells && TargetsLine(s, i))
  }

  lemma MarkerChanges(line: string)
    ensures Marker + line != line
  {
    assert |Marker + line| > |line|;
  }

  /** The fix records an unused-import smell of `smells`. */
  predicate FromSmell(fx: AutoFix, smells: seq<Smell>) {
    exists s :: s in smells && s.kind == UnusedImports && s.line == fx.line && s.nodeName == fx.nodeName
  }

  /** One line after one step: still as it was or marked once, and marked
      exactly when it was not a comment and some smell so far points at it. */
  lemma CommentStepLine(file: string, orig: seq<string>, done: seq<Smell>, p: LineState, s: Smell, i: int)
    requires MarkedFrom(orig, p.lines, done)
    requires 0 <= i < |orig|
    ensures var q := CommentStep(file, p, s);
            && (q.lines[i] == orig[i] || q.lines[i] == Marker + orig[i])
            && (q.lines[i] != orig[i] <==> !Commented(orig[i]) && exists t :: t in done + [s] && TargetsLine(t, i))
  {
    var done' := done + [s];
    MarkerChanges(orig[i]);
    MarkedIsCommented(orig[i]);
    if TargetsLine(s, i) {
      assert s in done';
    }
    if exists t :: t in done' && TargetsLine(t, i) {
      var t :| t in done' && TargetsLine(t, i);
      if t != s {
        assert t in done;
      }
    }
  }

  /** A fix traced to the smells so far stays traced when one more smell is seen. */
  lemma FromSmellGrows(fx: AutoFix, done: seq<Smell>, s: Smell)
    requires FromSmell(fx, done)
    ensures FromSmell(fx, done + [s])
  {
    var t :| t in done && t.kind == UnusedImports && t.line == fx.line && t.nodeName == fx.nodeName;
    assert t in done + [s];
  }

  /** The fix one step adds: well formed, and for the smell's line and name. */
  lemma CommentStepNewFix(file: string, p: LineState, s: Smell)
    requires s.kind == UnusedImports && LineIndex(s) < |p.lines|
    ensures var q := CommentStep(file, p, s);
            && |q.fixes| == |p.fixes| + 1
            && q.fixes[..|p.fixes|] == p.fixes
            && GoodFix(file, q.fixes[|p.fixes|])
            && q.fixes[|p.fixes|].line == s.line && q.fixes[|p.fixes|].nodeName == s.nodeName
  {
    MarkedIsCommented(p.lines[LineIndex(s)]);
  }

  /** The fixes after one step: well formed, traced to a smell, and one more
      exactly when the smell is an unused import pointing inside the file. */
  lemma CommentStepFixes(file: string, done: seq<Smell>, p: LineState, s: Smell)
    requires forall fx :: fx in p.fixes ==> GoodFix(file, fx) && FromSmell(fx, done)
    ensures var q := CommentStep(file, p, s);
            && (forall fx :: fx in q.fixes ==> GoodFix(file, fx) && FromSmell(fx, done + [s]))
            && |q.fixes| == |p.fixes| + (if s.kind == UnusedImports && LineIndex(s) < |p.lines| then 1 else 0)
  {
    var q := CommentStep(file, p, s);
    if s.kind == UnusedImports && LineIndex(s) < |p.lines| {
      CommentStepNewFix(file, p, s);
      forall fx | fx in q.fixes
        ensures GoodFix(file, fx) && FromSmell(fx, done + [s])
      {
        var k :| 0 <= k < |q.fixes| && q.fixes[k] == fx;
        if k < |p.fixes| {
          assert fx == q.fixes[..|p.fixes|][k];
          FromSmellGrows(fx, done, s);
        } else {
          assert s in done + [s];
        }
      }
    } else {
      forall fx | fx in p.fixes
        ensures FromSmell(fx, done + [s])
      {
        FromSmellGrows(fx, done, s);
      }
    }
  }

  lemma CommentStepSound(file: string, orig: seq<string>, done: seq<Smell>, p: LineState, s: Smell)
    requires MarkedFrom(orig, p.lines, done)
    requires forall fx :: fx in p.fixes ==> GoodFix(file, fx) && FromSmell(fx, done)
    ensures var q := CommentStep(file, p, s);
            && MarkedFrom(orig, q.lines, done + [s])
            && (forall fx :: fx in q.fixes ==> GoodFix(file, fx) && FromSmell(fx, done + [s]))
            && |q.fixes| == |p.fixes| + (if s.kind == UnusedImports && LineIndex(s) < |orig| then 1 else 0)
  {
    var q := CommentStep(file, p, s);
    assert |q.lines| == |orig|;
    forall i | 0 <= i < |orig|
      ensures && (q.lines[i] == orig[i] || q.lines[i] == Marker + orig[i])
              && (q.lines[i] != orig[i] <==> !Commented(orig[i]) && exists t :: t in done + [s] && TargetsLine(t, i))
    {
      CommentStepLine(file, orig, done, p, s, i);
    }
    CommentStepFixes(file, done, p, s);
  }

  lemma {:induction false} CommentOutSound(file: string, orig: seq<string>, done: seq<Smell>, p: LineState, smells: seq<Smell>)
    requires MarkedFrom(orig, p.lines, done)
    requires forall fx :: fx in p.fixes ==> GoodFix(file, fx) && FromSmell(fx, done)
    ensures var r := CommentOut(file, p, smells);
            && MarkedFrom(orig, r.lines, done + smells)
            && (forall fx :: fx in r.fixes ==> GoodFix(file, fx) && FromSmell(fx, done + smells))
            && |r.fixes| == |p.fixes| + InRange(smells, |orig|)
    decreases |smells|
  {
    if smells == [] {
      assert done + smells == done;
    } else {
      CommentStepSound(file, orig, done, p, smells[0]);
      CommentOutSound(file, orig, done + [smells[0]], CommentStep(file, p, smells[0]), smells[1..]);
      assert done + [smells[0]] + smells[1..] == done + smells;
    }
  }

  /** The loop of `apply_fixes` over one file's lines. */
  function FixLines(file: string, lines: seq<string>, smells: seq<Smell>): (r: LineState)
    ensures MarkedFrom(lines, r.lines, smells)
    ensures forall fx :: fx in r.fixes ==> GoodFix(file, fx) && FromSmell(fx, smells)
    ensures |r.fixes| == InRange(smells, |lines|)
  {
    CommentOutSound(file, lines, [], LineState(lines, []), smells);
    assert [] + smells == smells;
    CommentOut(file, LineState(lines, []), smells)
  }

  /** What `apply_fixes` writes to a readable file `f`. */
  function FixedText(read: string -> Option<string>, smells: seq<Smell>, f: string): string
    requires read(f).Some?
  {
    WriteBack(FixLines(f, SplitLines(read(f).value), SmellsIn(smells, f)).lines)
  }

  /** A fix `apply_fixes` can record: for a readable file, well formed, and
      coming from one of that file's unused-import smells. */
  ghost predicate Recorded(read: string -> Option<string>, smells: seq<Smell>, fx: AutoFix) {
    read(fx.file).Some? && GoodFix(fx.file, fx) && FromSmell(fx, SmellsIn(smells, fx.file))
  }

  /** What `apply_fixes` records for a readable file `f`. */
  function FileFixes(read: string -> Option<string>, smells: seq<Smell>, f: string): (r: seq<AutoFix>)
    requires read(f).Some?
    ensures forall fx :: fx in r ==> fx.file == f && Recorded(read, smells, fx)
  {
    FixLines(f, SplitLines(read(f).value), SmellsIn(smells, f)).fixes
  }

  /** The files of `files` that can be read, in order. */
  function Readable(read: string -> Option<string>, files: seq<string>): (r: seq<string>)
    ensures forall f :: f in r <==> f in files && read(f).Some?
    ensures Detectors.Distinct(files) ==> Detectors.Distinct(r)
  {
    if files == [] then []
    else
      var rest := Readable(read, files[1..]);
      var r := (if read(files[0]).Some? then [files[0]] else []) + rest;
      r
  }

  /** The fixes recorded for the readable files `files`, file after file. */
  function FixesOf(read: string -> Option<string>, smells: seq<Smell>, files: seq<string>): (r: seq<AutoFix>)
    requires forall f :: f in files ==> read(f).Some?
    ensures forall fx :: fx in r ==> fx.file in files && Recorded(read, smells, fx)
  {
    if files == [] then [] else FileFixes(read, smells, files[0]) + FixesOf(read, smells, files[1..])
  }

  /** The files written back, in order, each with its fixed text. */
  function WritesOf(read: string -> Option<string>, smells: seq<Smell>, files: seq<string>): (ws: seq<Write>)
    requires forall f :: f in files ==> read(f).Some?
    ensures |ws| == |files|
    ensures forall i :: 0 <= i < |files| ==> ws[i] == Write(files[i], FixedText(read, smells, files[i]))
  {
    if files == [] then []
    else [Write(files[0], FixedText(read, smells, files[0]))] + WritesOf(read, smells, files[1..])
  }

  /** `apply_fixes`: comments out the lines unused-import smells point at,
      file by file, and writes every readable file back. */
  function ApplyFixes(read: string -> Option<string>, smells: seq<Smell>): (r: Outcome)
    ensures forall fx :: fx in r.fixes ==>
              && read(fx.file).Some? && GoodFix(fx.file, fx)
              && exists s :: s in smells && s.file == fx.file && s.kind == UnusedImports && s.line == fx.line
    ensures forall w :: w in r.writes ==> read(w.path).Some? && w.text == FixedText(read, smells, w.path)
    ensures forall w :: w in r.writes ==> exists s :: s in smells && s.file == w.path
    ensures forall s :: s in smells && read(s.file).Some? ==> exists w :: w in r.writes && w.path == s.file
    ensures forall i, j :: 0 <= i < j < |r.writes| ==> r.writes[i].path != r.writes[j].path
  {
    var files := Readable(read, FilesOf(smells));
    var r := Outcome(FixesOf(read, smells, files), WritesOf(read, smells, files));
    FixesTraced(read, smells, r.fixes);
    WritesCover(read, smells, files, r.writes);
    r
  }

  /** Every recorded fix comes from an unused-import smell of its own file. */
  lemma FixesTraced(read: string -> Option<string>, smells: seq<Smell>, fixes: seq<AutoFix>)
    requires forall fx :: fx in fixes ==> Recorded(read, smells, fx)
    ensures forall fx :: fx in fixes ==>
              exists s :: s in smells && s.file == fx.file && s.kind == UnusedImports && s.line == fx.line
  {
    forall fx | fx in fixes
      ensures exists s :: s in smells && s.file == fx.file && s.kind == UnusedImports && s.line == fx.line
    {
      var s :| s in SmellsIn(smells, fx.file) && s.kind == UnusedImports && s.line == fx.line && s.nodeName == fx.nodeName;
      assert s in smells && s.file == fx.file;
    }
  }

  /** One write per readable file of the smells, at distinct paths, and no
      write to any other file. */
  lemma WritesCover(read: string -> Option<string>, smells: seq<Smell>, files: seq<string>, ws: seq<Write>)
    requires files == Readable(read, FilesOf(smells))
    requires |ws| == |files| && forall i :: 0 <= i < |files| ==> ws[i].path == files[i]
    ensures forall w :: w in ws ==> exists s :: s in smells && s.file == w.path
    ensures forall s :: s in smells && read(s.file).Some? ==> exists w :: w in ws && w.path == s.file
    ensures forall i, j :: 0 <= i < j < |ws| ==> ws[i].path != ws[j].path
  {
    forall w | w in ws
      ensures exists s :: s in smells && s.file == w.path
    {
      var i :| 0 <= i < |ws| && ws[i] == w;
      assert files[i] in files;
    }
    forall s | s in smells && read(s.file).Some?
      ensures exists w :: w in ws && w.path == s.file
    {
      assert s.file in files;
      var i :| 0 <= i < |files| && files[i] == s.file;
      assert ws[i] in ws;
    }
  }

  /** A file with no unused import to comment out is written back unchanged,
      as long as it ends with a newline and is not empty. `ApplyFixes` writes
      exactly `FixedText` for every file it writes. */
  lemma UntouchedFileKeepsText(read: string -> Option<string>, smells: seq<Smell>, f: string, ls: seq<string>)
    requires read(f) == Some(Unlines(ls)) && ls != []
    requires forall k :: 0 <= k < |ls| ==> '\n' !in ls[k]
    requires forall s :: s in smells && s.file == f ==> s.kind != UnusedImports
    ensures FixedText(read, smells, f) == Unlines(ls)
  {
    SplitUnlines(ls);
    NothingToComment(f, ls, SmellsIn(smells, f));
    JoinThenNewline(ls);
  }

  /** Without an unused-import smell, the fixer leaves every line as it was. */
  lemma NothingToComment(file: string, ls: seq<string>, smells: seq<Smell>)
    requires forall s :: s in smells ==> s.kind != UnusedImports
    ensures FixLines(file, ls, smells).lines == ls
  {
    var lines := FixLines(file, ls, smells).lines;
    forall k | 0 <= k < |ls|
      ensures lines[k] == ls[k]
    {
      assert forall s :: s in smells ==> !TargetsLine(s, k);
    }
  }

  /** An empty file is written back as a single newline. */
  lemma EmptyFileGainsNewline(read: string -> Option<string>, smells: seq<Smell>, i: nat)
    requires i < |ApplyFixes(read, smells).writes|
    requires read(ApplyFixes(read, smells).writes[i].path) == Some("")
    ensures ApplyFixes(read, smells).writes[i].text == "\n"
  {
    var w := ApplyFixes(read, smells).writes[i];
    assert w in ApplyFixes(read, smells).writes;
    var lines := FixLines(w.path, [], SmellsIn(smells, w.path)).lines;
    assert MarkedFrom([], lines, SmellsIn(smells, w.path)) && w.text == WriteBack(lines);
    assert lines == [];
  }

  // ---------------------------------------------------------------------------
  // The AI fixer
  // ---------------------------------------------------------------------------

  /** The smell types `apply_ai_fixes` handles when no list is given. */
  const DefaultAllowed: seq<string> := ["long_method", "long_parameter_list", "missing_type_hints", "unused_imports"]

  /** `_get_ai_fix`: the fix comes from OpenRouter whenever that engine is
      configured, from Ollama only when OpenRouter is not, and from nowhere
      when neither is. */
  function ChooseFixer(openrouter: Option<(Smell, string) -> Option<string>>,
                       ollama: Option<(Smell, string) -> Option<string>>): (r: (Smell, string) -> Option<string>)
    ensures openrouter.Some? ==> forall s, b :: r(s, b) == openrouter.value(s, b)
    ensures openrouter.None? && ollama.Some? ==> forall s, b :: r(s, b) == ollama.value(s, b)
    ensures openrouter.None? && ollama.None? ==> forall s, b :: r(s, b).None?
  {
    if openrouter.Some? then openrouter.value
    else if ollama.Some? then ollama.value
    else (s: Smell, b: string) => None
  }

  /** Unlike the review engine, the fixer does not fall back: a configured
      OpenRouter that gives no fix leaves the smell unfixed even when Ollama
      would have answered. */
  lemma NoFallbackForFixes(openrouter: Option<(Smell, string) -> Option<string>>,
                           ollama: Option<(Smell, string) -> Option<string>>, s: Smell, b: string)
    requires openrouter.Some? && openrouter.value(s, b).None?
    ensures ChooseFixer(openrouter, ollama)(s, b).None?
  {
  }

  /** The AI fixer's state within one file: the current lines, the failures
      already reported, and this file's tentative patches. */
  datatype AiState = AiState(lines: seq<string>, failed: seq<AutoFix>, tentative: seq<AutoFix>)

  /** The smell is of an allowed type and points at a definition of the tree. */
  predicate Attempted(tree: Module, allowed: seq<string>, s: Smell) {
    s.kind.Tag() in allowed && FindTarget(tree, s).Some?
  }

  /** One smell of the loop in `apply_ai_fixes`. The node is looked up in the
      tree parsed before any patch, but its source is cut from the current
      lines. */
  function AiStep(file: string, tree: Module, ai: (Smell, string) -> Option<string>, allowed: seq<string>,
                  p: AiState, s: Smell): AiState
  {
    if !Attempted(tree, allowed, s) then p
    else
      var d := FindTarget(tree, s).value;
      var before := NodeSource(p.lines, d.line, d.endLine);
      var fixed := ai(s, before);
      if fixed.None? || fixed.value == "" then
        AiState(p.lines,
                p.failed + [AutoFix(file, s.line, s.kind.Tag(), s.nodeName, before, "", false,
                                    "AI did not return a valid fix")],
                p.tentative)
      else
        AiState(ReplaceNodeSource(p.lines, d.line, d.endLine, fixed.value), p.failed,
                p.tentative + [AutoFix(file, s.line, s.kind.Tag(), s.nodeName, before, fixed.value, true,
                                       "AI patch applied")])
  }

  function AiFold(file: string, tree: Module, ai: (Smell, string) -> Option<string>, allowed: seq<string>,
                  p: AiState, smells: seq<Smell>): AiState
    decreases |smells|
  {
    if smells == [] then p else AiFold(file, tree, ai, allowed, AiStep(file, tree, ai, allowed, p, smells[0]), smells[1..])
  }

  /** Number of smells of `smells` the AI fixer asks the AI about. */
  function AttemptCount(tree: Module, allowed: seq<string>, smells: seq<Smell>): nat {
    if smells == [] then 0
    else (if Attempted(tree, allowed, smells[0]) then 1 else 0) + AttemptCount(tree, allowed, smells[1..])
  }

  /** A failure record: the AI gave nothing usable for an allowed smell. */
  predicate FailedFix(file: string, allowed: seq<string>, fx: AutoFix) {
    fx.file == file && fx.smellType in allowed && !fx.applied && fx.fixedCode == ""
    && fx.reason == "AI did not return a valid fix"
  }

  /** A tentative patch for an allowed smell. */
  predicate PatchFix(file: string, allowed: seq<string>, fx: AutoFix) {
    fx.file == file && fx.smellType in allowed && fx.applied && fx.fixedCode != ""
    && fx.reason == "AI patch applied"
  }

  lemma {:induction false} AiFoldSound(file: string, tree: Module, ai: (Smell, string) -> Option<string>,
                                       allowed: seq<string>, p: AiState, smells: seq<Smell>)
    requires forall fx :: fx in p.failed ==> FailedFix(file, allowed, fx)
    requires forall fx :: fx in p.tentative ==> PatchFix(file, allowed, fx)
    ensures var r := AiFold(file, tree, ai, allowed, p, smells);
            && (forall fx :: fx in r.failed ==> FailedFix(file, allowed, fx))
            && (forall fx :: fx in r.tentative ==> PatchFix(file, allowed, fx))
            && |r.failed| + |r.tentative| == |p.failed| + |p.tentative| + AttemptCount(tree, allowed, smells)
            && (|r.tentative| == |p.tentative| ==> r.lines == p.lines)
            && |r.tentative| >= |p.tentative|
    decreases |smells|
  {
    if smells != [] {
      var q := AiStep(file, tree, ai, allowed, p, smells[0]);
      AiFoldSound(file, tree, ai, allowed, q, smells[1..]);
    }
  }

  /** The fixes of a file whose patched text does not parse: all withdrawn. */
  function RollBack(fs: seq<AutoFix>): (r: seq<AutoFix>)
    ensures |r| == |fs|
    ensures forall i :: 0 <= i < |fs| ==>
              r[i] == fs[i].(applied := false, reason := "AI patch broke syntax; rolled back")
  {
    seq(|fs|, i requires 0 <= i < |fs| => fs[i].(applied := false, reason := "AI patch broke syntax; rolled back"))
  }

  /** What the AI fixer does to one file: the fixes it reports, and the text it
      writes (`None` when the file does not parse and is skipped). */
  datatype FileResult = FileResult(fixes: seq<AutoFix>, written: Option<string>)

  /** The text of a parsed file after all of its patches. */
  function Patched(file: string, text: string, tree: Module, ai: (Smell, string) -> Option<string>,
                   allowed: seq<string>, smells: seq<Smell>): AiState
  {
    AiFold(file, tree, ai, allowed, AiState(SplitLines(text), [], []), smells)
  }

  /** The body of the per-file loop of `apply_ai_fixes`: a file that does not
      parse is skipped; otherwise its patches are kept only if the patched text
      parses, and withdrawn (the original text written back) if it does not. */
  function AiFixFile(file: string, text: string, parse: string -> Option<Module>,
                     ai: (Smell, string) -> Option<string>, allowed: seq<string>, smells: seq<Smell>): (r: FileResult)
    ensures r.written.Some? <==> parse(text).Some?
    ensures r.written.Some? ==> parse(r.written.value).Some?
    ensures parse(text).None? ==> r.fixes == []
    ensures parse(text).Some? ==> |r.fixes| == AttemptCount(parse(text).value, allowed, smells)
    ensures forall fx :: fx in r.fixes ==> fx.file == file && fx.smellType in allowed
    ensures forall fx :: fx in r.fixes && fx.applied ==>
              && fx.reason == "AI patch applied" && fx.fixedCode != ""
              && r.written == Some(WriteBack(Patched(file, text, parse(text).value, ai, allowed, smells).lines))
    ensures forall fx :: fx in r.fixes && !fx.applied ==>
              fx.reason == "AI did not return a valid fix" || fx.reason == "AI patch broke syntax; rolled back"
    ensures parse(text).Some?
            && parse(WriteBack(Patched(file, text, parse(text).value, ai, allowed, smells).lines)).None?
            ==> r.written == Some(text) && forall fx :: fx in r.fixes ==> !fx.applied
  {
    match parse(text)
    case None => FileResult([], None)
    case Some(tree) =>
      var p := Patched(file, text, tree, ai, allowed, smells);
      AiFoldSound(file, tree, ai, allowed, AiState(SplitLines(text), [], []), smells);
      var newText := WriteBack(p.lines);
      if parse(newText).Some? then FileResult(p.failed + p.tentative, Some(newText))
      else
        var back := RollBack(p.tentative);
        assert forall fx :: fx in back ==> fx.file == file && fx.smellType in allowed by {
          forall fx | fx in back
            ensures fx.file == file && fx.smellType in allowed
          {
            var i :| 0 <= i < |back| && back[i] == fx;
            assert p.tentative[i] in p.tentative;
          }
        }
        FileResult(p.failed + back, Some(text))
  }

  /** What the AI fixer reports and writes for the readable file `f`. */
  function AiFileOutcome(read: string -> Option<string>, parse: string -> Option<Module>,
                         ai: (Smell, string) -> Option<string>, allowed: seq<string>,
                         smells: seq<Smell>, f: string): (r: Outcome)
    requires read(f).Some?
    ensures forall fx :: fx in r.fixes ==> fx.file == f && fx.smellType in allowed
    ensures forall w :: w in r.writes ==> w.path == f && parse(w.text).Some?
    ensures |r.writes| == (if parse(read(f).value).Some? then 1 else 0)
  {
    var res := AiFixFile(f, read(f).value, parse, ai, allowed, SmellsIn(smells, f));
    Outcome(res.fixes, if res.written.Some? then [Write(f, res.written.value)] else [])
  }

  function PathsOf(ws: seq<Write>): (r: seq<string>)
    ensures |r| == |ws| && forall i :: 0 <= i < |ws| ==> r[i] == ws[i].path
  {
    seq(|ws|, i requires 0 <= i < |ws| => ws[i].path)
  }

  /** The files of `files` whose text parses, in order. */
  function Parsable(read: string -> Option<string>, parse: string -> Option<Module>, files: seq<string>): (r: seq<string>)
    requires forall f :: f in files ==> read(f).Some?
    ensures forall f :: f in r <==> f in files && parse(read(f).value).Some?
    ensures Detectors.Distinct(files) ==> Detectors.Distinct(r)
  {
    if files == [] then []
    else (if parse(read(files[0]).value).Some? then [files[0]] else []) + Parsable(read, parse, files[1..])
  }

  /** `apply_ai_fixes` over the readable files `files`, in order. */
  function AiOver(read: string -> Option<string>, parse: string -> Option<Module>,
                  ai: (Smell, string) -> Option<string>, allowed: seq<string>,
                  smells: seq<Smell>, files: seq<string>): (r: Outcome)
    requires forall f :: f in files ==> read(f).Some?
    ensures forall fx :: fx in r.fixes ==> fx.file in files && fx.smellType in allowed
    ensures forall w :: w in r.writes ==> parse(w.text).Some?
    ensures PathsOf(r.writes) == Parsable(read, parse, files)
  {
    if files == [] then Outcome([], [])
    else
      var head := AiFileOutcome(read, parse, ai, allowed, smells, files[0]);
      var rest := AiOver(read, parse, ai, allowed, smells, files[1..]);
      var r := Outcome(head.fixes + rest.fixes, head.writes + rest.writes);
      PathsOfAppend(head.writes, rest.writes);
      assert head.writes != [] ==> head.writes[0] in head.writes;
      assert PathsOf(head.writes) == if parse(read(files[0]).value).Some? then [files[0]] else [];
      r
  }

  lemma PathsOfAppend(a: seq<Write>, b: seq<Write>)
    ensures PathsOf(a + b) == PathsOf(a) + PathsOf(b)
  {
  }

  /** `apply_ai_fixes`: asks the AI to rewrite the definition each allowed
      smell points at, file by file. Every file it writes parses, and every fix
      it reports is for an allowed smell type of one of the smells' files. */
  function ApplyAiFixes(read: string -> Option<string>, parse: string -> Option<Module>,
                        ai: (Smell, string) -> Option<string>, allowed: Option<seq<string>>,
                        smells: seq<Smell>): (r: Outcome)
    ensures forall fx :: fx in r.fixes ==>
              && fx.smellType in allowed.GetOr(DefaultAllowed)
              && exists s :: s in smells && s.file == fx.file
    ensures forall w :: w in r.writes ==>
              && parse(w.text).Some?
              && read(w.path).Some? && parse(read(w.path).value).Some?
              && exists s :: s in smells && s.file == w.path
    ensures forall s :: s in smells && read(s.file).Some? && parse(read(s.file).value).Some?
              ==> exists w :: w in r.writes && w.path == s.file
    ensures forall i, j :: 0 <= i < j < |r.writes| ==> r.writes[i].path != r.writes[j].path
  {
    var files := Readable(read, FilesOf(smells));
    var r := AiOver(read, parse, ai, allowed.GetOr(DefaultAllowed), smells, files);
    var paths := Parsable(read, parse, files);
    forall w | w in r.writes
      ensures read(w.path).Some? && parse(read(w.path).value).Some?
      ensures exists s :: s in smells && s.file == w.path
    {
      var i :| 0 <= i < |r.writes| && r.writes[i] == w;
      assert PathsOf(r.writes)[i] in paths;
      assert w.path in files;
    }
    forall s | s in smells && read(s.file).Some? && parse(read(s.file).value).Some?
      ensures exists w :: w in r.writes && w.path == s.file
    {
      assert s.file in paths;
      var i :| 0 <= i < |paths| && paths[i] == s.file;
      assert r.writes[i].path == s.file;
    }
    forall i, j | 0 <= i < j < |r.writes|
      ensures r.writes[i].path != r.writes[j].path
    {
      assert PathsOf(r.writes)[i] == paths[i] && PathsOf(r.writes)[j] == paths[j];
    }
    r
  }

  lemma {:induction false} AiFoldSilent(file: string, tree: Module, ai: (Smell, string) -> Option<string>,
                                        allowed: seq<string>, p: AiState, smells: seq<Smell>)
    requires forall s, b :: ai(s, b).None?
    ensures AiFold(file, tree, ai, allowed, p, smells).lines == p.lines
    ensures AiFold(file, tree, ai, allowed, p, smells).tentative == p.tentative
    decreases |smells|
  {
    if smells != [] {
      AiFoldSilent(file, tree, ai, allowed, AiStep(file, tree, ai, allowed, p, smells[0]), smells[1..]);
    }
  }

  /** When the AI never answers, every attempted smell is reported as a failure,
      nothing is applied, and a parsed file is written back with its own lines. */
  lemma SilentAiChangesNothing(file: string, text: string, parse: string -> Option<Module>,
                               ai: (Smell, string) -> Option<string>, allowed: seq<string>, smells: seq<Smell>)
    requires forall s, b :: ai(s, b).None?
    requires parse(text).Some?
    ensures var r := AiFixFile(file, text, parse, ai, allowed, smells);
            && (forall fx :: fx in r.fixes ==> !fx.applied && fx.reason == "AI did not return a valid fix")
            && (r.written == Some(WriteBack(SplitLines(text))) || r.written == Some(text))
  {
    var tree := parse(text).value;
    AiFoldSilent(file, tree, ai, allowed, AiState(SplitLines(text), [], []), smells);
    AiFoldSound(file, tree, ai, allowed, AiState(SplitLines(text), [], []), smells);
  }
}
