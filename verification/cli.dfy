/**
  The parts of the command-line front end that compute something: docstring
  coverage (overall and per file), the `--min-coverage` abort, and the quality
  gate run over the project report.

  Which files exist, and what they parse to, is the input, given as the
  analyzer's `SourceFile` records.
 */
module Cli {
  import opened Wrappers
  import opened Syntax
  import opened Traversal
  import opened Smells
  import opened Text
  import opened Analyzer
  import Detectors
  import Fixer

  /** The argument of the `docstrings` command: a single `.py` file, or a
      directory together with the `.py` files found under it. */
  datatype Target = PyFile(file: SourceFile) | Directory(found: seq<SourceFile>)

  // ---------------------------------------------------------------------------
  // Docstrings
  // ---------------------------------------------------------------------------

  /** `ast.get_docstring(node, clean=False)`: the string literal that is the
      first statement of the body, if there is one. */
  function Docstring(body: seq<Stmt>): Option<string> {
    if body != [] && body[0].ExprStmt? && body[0].value.Constant? && body[0].value.text.Some?
    then Some(body[0].value.text.value)
    else None
  }

  /** A definition (`def`, `async def` or `class`) with a non-empty docstring. */
  predicate Documented(n: Node) {
    Fixer.IsDefinition(n) && Docstring(n.stmt.body).Some? && Docstring(n.stmt.body).value != ""
  }

  /** One entry of `per_file`: documented and total definitions of one file. */
  datatype FileCoverage = FileCoverage(path: string, documented: nat, total: nat)

  /** The counting loop over one parsed file. */
  function CountFile(path: string, tree: Module): (r: FileCoverage)
    ensures r.path == path && r.documented <= r.total
    ensures r.total == TreeTally(ModuleNode(tree), Indicator(Fixer.IsDefinition))
    ensures r.documented == TreeTally(ModuleNode(tree), Indicator(Documented))
  {
    var ns := Detectors.Nodes(tree);
    Detectors.CountWeaker(ns, Documented, Fixer.IsDefinition);
    WalkCount(ModuleNode(tree), Fixer.IsDefinition);
    WalkCount(ModuleNode(tree), Documented);
    FileCoverage(path, Count(ns, Documented), Count(ns, Fixer.IsDefinition))
  }

  /** The files the command reads: the one file given, or every file found in
      the directory whose name does not start with `__`. */
  function Scanned(t: Target): (r: seq<SourceFile>)
    ensures t.PyFile? ==> r == [t.file]
    ensures t.Directory? ==> forall f :: f in r <==> f in t.found && !StartsWith(f.name, "__")
  {
    match t
    case PyFile(f) => [f]
    case Directory(found) => KeepPublic(found)
  }

  function KeepPublic(fs: seq<SourceFile>): (r: seq<SourceFile>)
    ensures forall f :: f in r <==> f in fs && !StartsWith(f.name, "__")
  {
    if fs == [] then []
    else (if StartsWith(fs[0].name, "__") then [] else [fs[0]]) + KeepPublic(fs[1..])
  }

  /** The per-file counts of the files that parse, in order. */
  function PerFile(fs: seq<SourceFile>): (r: seq<FileCoverage>)
    ensures |r| <= |fs|
    ensures forall c :: c in r ==> exists f :: f in fs && f.tree.Some? && c == CountFile(f.path, f.tree.value)
    ensures forall f :: f in fs && f.tree.Some? ==> CountFile(f.path, f.tree.value) in r
  {
    if fs == [] then []
    else
      var rest := PerFile(fs[1..]);
      var r := (if fs[0].tree.Some? then [CountFile(fs[0].path, fs[0].tree.value)] else []) + rest;
      assert forall f :: f in fs ==> f == fs[0] || f in fs[1..];
      r
  }

  function SumDocumented(cs: seq<FileCoverage>): (n: nat)
    requires forall c :: c in cs ==> c.documented <= c.total
    ensures n <= SumTotal(cs)
  {
    if cs == [] then 0 else cs[0].documented + SumDocumented(cs[1..])
  }

  function SumTotal(cs: seq<FileCoverage>): nat {
    if cs == [] then 0 else cs[0].total + SumTotal(cs[1..])
  }

  /** What `compute_docstring_coverage` returns. */
  datatype Coverage = Coverage(pct: real, documented: nat, total: nat, perFile: seq<FileCoverage>)

  /** `compute_docstring_coverage`: the share of documented definitions over
      every file read, as a percentage, with 0 when there are none. */
  function ComputeCoverage(t: Target): (r: Coverage)
    ensures r.perFile == PerFile(Scanned(t))
    ensures r.documented == SumDocumented(r.perFile) && r.total == SumTotal(r.perFile)
    ensures r.documented <= r.total
    ensures 0.0 <= r.pct <= 100.0
    ensures r.total == 0 ==> r.pct == 0.0
    ensures r.total > 0 ==> (r.pct == 100.0 <==> r.documented == r.total)
    ensures t.Directory? ==> forall c :: c in r.perFile ==>
              exists f :: f in t.found && f.path == c.path && !StartsWith(f.name, "__") && f.tree.Some?
  {
    var per := PerFile(Scanned(t));
    assert forall c :: c in per ==> c.documented <= c.total;
    var doc := SumDocumented(per);
    var total := SumTotal(per);
    var pct := if total == 0 then 0.0 else Percent(doc, total);
    Coverage(pct, doc, total, per)
  }

  /** `doc / total * 100`, for `doc <= total` and `total > 0`. */
  function Percent(doc: nat, total: nat): (p: real)
    requires doc <= total && total > 0
    ensures 0.0 <= p <= 100.0
    ensures p == 100.0 <==> doc == total
  {
    var d := doc as real;
    var n := total as real;
    var p := d / n * 100.0;
    assert d / n * n == d;
    assert p * n == d * 100.0;
    assert 0.0 <= p by {
      assert 0.0 <= d / n;
    }
    assert p <= 100.0 by {
      assert d / n <= 1.0;
    }
    assert p == 100.0 ==> doc == total by {
      if p == 100.0 {
        assert d * 100.0 == n * 100.0;
      }
    }
    p
  }

  /** The percentage the verbose listing shows for one file: 100 when the file
      has no definitions at all. */
  function FilePercent(c: FileCoverage): (p: real)
    requires c.documented <= c.total
    ensures 0.0 <= p <= 100.0
    ensures p == 100.0 <==> c.documented == c.total
  {
    if c.total == 0 then 100.0 else Percent(c.documented, c.total)
  }

  /** `--min-coverage`: the command aborts exactly when a minimum is given and
      the coverage is below it. */
  predicate CoverageAborts(pct: real, minCoverage: Option<real>) {
    minCoverage.Some? && pct < minCoverage.value
  }

  /** A project without any definition reports 0% overall, so any positive
      minimum aborts, while each of its files is listed at 100%. */
  lemma EmptyProjectFailsMinimum(t: Target, minCoverage: real)
    requires ComputeCoverage(t).total == 0 && minCoverage > 0.0
    ensures CoverageAborts(ComputeCoverage(t).pct, Some(minCoverage))
    ensures forall c :: c in ComputeCoverage(t).perFile ==> c.total == 0 && FilePercent(c) == 100.0
  {
    var r := ComputeCoverage(t);
    forall c | c in r.perFile
      ensures c.total == 0
    {
      TotalsVanish(r.perFile, c);
    }
  }

  lemma {:induction false} TotalsVanish(cs: seq<FileCoverage>, c: FileCoverage)
    requires SumTotal(cs) == 0 && c in cs
    ensures c.total == 0
  {
    if cs[0] != c {
      TotalsVanish(cs[1..], c);
    }
  }

  /** Full coverage never aborts, whatever minimum up to 100 is asked for. */
  lemma FullCoverageNeverAborts(t: Target, minCoverage: real)
    requires ComputeCoverage(t).total > 0
    requires ComputeCoverage(t).documented == ComputeCoverage(t).total
    requires minCoverage <= 100.0
    ensures !CoverageAborts(ComputeCoverage(t).pct, Some(minCoverage))
  {
  }

  // ---------------------------------------------------------------------------
  // The quality gate
  // ---------------------------------------------------------------------------

  /** The default `--min-quality` of the `gate` command. */
  const DefaultMinQuality: real := 6.0

  /** The gate fails when the average quality is below the minimum or any
      critical or high smell was found. */
  predicate GateFails(r: Report, minQuality: real) {
    r.avgQuality < minQuality || Get(r.distribution, Critical) > 0 || Get(r.distribution, High) > 0
  }

  /** Passing the gate means: quality at least the minimum, and not one high or
      critical smell in the whole project. */
  lemma GatePassMeans(a: State, coverage: Option<real>, minQuality: real)
    requires !GateFails(ComputeProjectMetrics(a, coverage), minQuality)
    ensures ComputeProjectMetrics(a, coverage).avgQuality >= minQuality
    ensures CountSeverity(a.smells, High) == 0 && CountSeverity(a.smells, Critical) == 0
    ensures forall s :: s in a.smells ==> s.severity == Low || s.severity == Medium
  {
    forall s | s in a.smells
      ensures s.severity == Low || s.severity == Medium
    {
      if s.severity == High {
        CountSeverityPositive(a.smells, s);
      } else if s.severity == Critical {
        CountSeverityPositive(a.smells, s);
      }
    }
  }

  lemma {:induction false} CountSeverityPositive(smells: seq<Smell>, s: Smell)
    requires s in smells
    ensures CountSeverity(smells, s.severity) > 0
  {
    if smells[0] != s {
      CountSeverityPositive(smells[1..], s);
    }
  }

  /** With the default minimum of 6.0 the gate can never pass: the quality
      score of every file is at most 5, and so is their average. */
  lemma DefaultGateAlwaysFails(a: State, coverage: Option<real>)
    requires Valid(a)
    ensures GateFails(ComputeProjectMetrics(a, coverage), DefaultMinQuality)
  {
  }
}
