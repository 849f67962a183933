/**
  `CodeQualityAnalyzer`: per-file analysis into `FileMetrics`, the analyzer's
  accumulated state, and `compute_project_metrics`.

  The analyzer's `files` dictionary is an insertion-ordered sequence of
  `FileMetrics` with distinct paths: storing a path that is already present
  replaces its entry in place, as assigning to an existing dictionary key does.
 */
module Analyzer {
  import opened Wrappers
  import opened Syntax
  import opened Traversal
  import opened Smells
  import opened Metrics
  import opened Detectors
  import opened Unreachable
  import Text

  /** Every smell of `smells` was reported for `file`. */
  predicate OfFile(file: string, smells: seq<Smell>) {
    forall s :: s in smells ==> s.file == file
  }

  lemma OfFileAppend(file: string, a: seq<Smell>, b: seq<Smell>)
    requires OfFile(file, a) && OfFile(file, b)
    ensures OfFile(file, a + b)
  {
  }

  lemma IffDetectorsOfFile(file: string, tree: Module)
    ensures OfFile(file, LongMethods(file, tree))
    ensures OfFile(file, GodClasses(file, tree))
    ensures OfFile(file, DeepNestingSmells(file, tree))
    ensures OfFile(file, LongParameterLists(file, tree))
    ensures OfFile(file, MissingHints(file, tree))
    ensures OfFile(file, UnusedImportSmells(file, tree))
    ensures OfFile(file, ManyLocals(file, tree))
    ensures OfFile(file, UnreachableSmells(file, tree))
  {
  }

  lemma SearchDetectorsOfFile(file: string, tree: Module)
    ensures OfFile(file, FeatureEnvySmells(file, tree))
    ensures OfFile(file, SwallowingSmells(file, tree))
  {
    forall s | s in SwallowingSmells(file, tree)
      ensures s.file == file
    {
      var t :| t in Nodes(tree) && s in SwallowedIn(file, t);
    }
    forall s | s in FeatureEnvySmells(file, tree)
      ensures s.file == file
    {
      var c :| c in Nodes(tree) && s in EnvyInClass(file, c);
      var m :| m in c.stmt.body && s in EnvyInMethod(file, c.stmt.name, StmtNode(m));
    }
  }

  /** All ten detectors of `analyze_file`, in the order the source runs them. */
  function DetectSmells(file: string, tree: Module): (r: seq<Smell>)
    ensures OfFile(file, r)
  {
    IffDetectorsOfFile(file, tree);
    SearchDetectorsOfFile(file, tree);
    var a := LongMethods(file, tree) + GodClasses(file, tree);
    OfFileAppend(file, LongMethods(file, tree), GodClasses(file, tree));
    var b := a + DeepNestingSmells(file, tree);
    OfFileAppend(file, a, DeepNestingSmells(file, tree));
    var c := b + LongParameterLists(file, tree);
    OfFileAppend(file, b, LongParameterLists(file, tree));
    var d := c + MissingHints(file, tree);
    OfFileAppend(file, c, MissingHints(file, tree));
    var e := d + UnusedImportSmells(file, tree);
    OfFileAppend(file, d, UnusedImportSmells(file, tree));
    var f := e + ManyLocals(file, tree);
    OfFileAppend(file, e, ManyLocals(file, tree));
    var g := f + FeatureEnvySmells(file, tree);
    OfFileAppend(file, f, FeatureEnvySmells(file, tree));
    var h := g + SwallowingSmells(file, tree);
    OfFileAppend(file, g, SwallowingSmells(file, tree));
    OfFileAppend(file, h, UnreachableSmells(file, tree));
    h + UnreachableSmells(file, tree)
  }

  /** `FileMetrics`: one analysed file. */
  datatype FileMetrics = FileMetrics(path: string, loc: nat, mi: real, smells: seq<Smell>, quality: real)

  /** The bounds every stored file satisfies. */
  predicate WellScored(m: FileMetrics) {
    0.0 <= m.mi <= 100.0 && 0.0 <= m.quality <= 5.0
  }

  /** The metrics `analyze_file` computes for one parsed file: `loc` counts the
      file's statements, the index uses the whole tree's complexity and volume,
      and the score charges every smell found. */
  function MeasureFile(ln: real -> real, log2: real -> real, path: string, tree: Module): (m: FileMetrics)
    ensures m.path == path
    ensures m.loc == CountLines(ModuleNode(tree))
    ensures WellScored(m)
    ensures OfFile(path, m.smells)
    ensures |m.smells| == 0 ==> m.quality == m.mi / 20.0
  {
    var smells := DetectSmells(path, tree);
    var loc := CountLines(ModuleNode(tree));
    var mi := MaintainabilityIndex(ln, HalsteadVolume(log2, tree), CyclomaticComplexity(tree), loc);
    QualityScoreAntitone(mi, [], []);
    FileMetrics(path, loc, mi, smells, QualityScore(mi, smells))
  }

  // ---------------------------------------------------------------------------
  // The `files` dictionary
  // ---------------------------------------------------------------------------

  predicate UniquePaths(files: seq<FileMetrics>) {
    forall i, j :: 0 <= i < j < |files| ==> files[i].path != files[j].path
  }

  /** The position of `path` among the stored files, or -1. */
  function Find(files: seq<FileMetrics>, path: string): (i: int)
    ensures -1 <= i < |files|
    ensures i >= 0 ==> files[i].path == path
    ensures forall j :: 0 <= j < |files| && (i < 0 || j < i) ==> files[j].path != path
  {
    if files == [] then -1
    else if files[0].path == path then 0
    else
      var k := Find(files[1..], path);
      assert forall j :: 1 <= j < |files| ==> files[j] == files[1..][j - 1];
      if k < 0 then -1 else k + 1
  }

  /** `files.get(path)`. */
  function Lookup(files: seq<FileMetrics>, path: string): (r: Option<FileMetrics>)
    ensures r.Some? <==> exists i :: 0 <= i < |files| && files[i].path == path
    ensures r.Some? ==> r.value in files && r.value.path == path
  {
    var i := Find(files, path);
    if i < 0 then None else Some(files[i])
  }

  /** `files[m.path] = m`: replace the entry of the same path in place, or
      append a new one. Either way every other path keeps its entry. */
  function Store(files: seq<FileMetrics>, m: FileMetrics): (r: seq<FileMetrics>)
    ensures Lookup(r, m.path) == Some(m)
    ensures forall p :: p != m.path ==> Lookup(r, p) == Lookup(files, p)
    ensures |r| == |files| + (if Lookup(files, m.path).Some? then 0 else 1)
    ensures UniquePaths(files) ==> UniquePaths(r)
    ensures forall x :: x in r ==> x in files || x == m
  {
    var i := Find(files, m.path);
    if i < 0 then
      var r := files + [m];
      forall p
        ensures Find(r, p) == if p == m.path then |files| else Find(files, p)
      {
        FindAppend(files, m, p);
      }
      r
    else
      var r := files[i := m];
      forall p
        ensures Find(r, p) == Find(files, p)
      {
        FindSamePaths(files, r, p);
      }
      r
  }

  /** Appending an entry leaves the positions of the stored paths alone. */
  lemma {:induction false} FindAppend(files: seq<FileMetrics>, m: FileMetrics, p: string)
    requires Find(files, m.path) < 0
    ensures Find(files + [m], p) == if p == m.path then |files| else Find(files, p)
  {
    if files != [] {
      assert (files + [m])[1..] == files[1..] + [m];
      FindAppend(files[1..], m, p);
    }
  }

  /** Two lists with the same paths in the same order find every path at the
      same position. */
  lemma {:induction false} FindSamePaths(a: seq<FileMetrics>, b: seq<FileMetrics>, p: string)
    requires |a| == |b| && forall j :: 0 <= j < |a| ==> a[j].path == b[j].path
    ensures Find(a, p) == Find(b, p)
  {
    if a != [] {
      assert forall j :: 0 <= j < |a| - 1 ==> a[1..][j].path == b[1..][j].path by {
        forall j | 0 <= j < |a| - 1
          ensures a[1..][j].path == b[1..][j].path
        {
          assert a[1..][j] == a[j + 1] && b[1..][j] == b[j + 1];
        }
      }
      FindSamePaths(a[1..], b[1..], p);
    }
  }

  /** The analyzer's state: every smell found so far, and the stored files. */
  datatype State = State(smells: seq<Smell>, files: seq<FileMetrics>)

  const Initial: State := State([], [])

  predicate Valid(a: State) {
    UniquePaths(a.files) && forall i :: 0 <= i < |a.files| ==> WellScored(a.files[i])
  }

  /** `analyze_file(path)`: store the file's metrics under its path and append
      its smells to the project-wide list. */
  function AnalyzeFile(ln: real -> real, log2: real -> real, a: State, path: string, tree: Module): (b: State)
    ensures b.smells == a.smells + DetectSmells(path, tree)
    ensures Valid(a) ==> Valid(b) && Lookup(b.files, path) == Some(MeasureFile(ln, log2, path, tree))
    ensures forall p :: p != path ==> Lookup(b.files, p) == Lookup(a.files, p)
  {
    var m := MeasureFile(ln, log2, path, tree);
    var files := Store(a.files, m);
    if Valid(a) then
      StoreWellScored(a.files, m);
      State(a.smells + m.smells, files)
    else
      State(a.smells + m.smells, files)
  }

  lemma StoreWellScored(files: seq<FileMetrics>, m: FileMetrics)
    requires WellScored(m) && forall i :: 0 <= i < |files| ==> WellScored(files[i])
    ensures forall i :: 0 <= i < |Store(files, m)| ==> WellScored(Store(files, m)[i])
  {
    var r := Store(files, m);
    forall i | 0 <= i < |r|
      ensures WellScored(r[i])
    {
      assert r[i] in r;
      if r[i] != m {
        var k :| 0 <= k < |files| && files[k] == r[i];
      }
    }
  }

  /** Analysing the same path twice keeps one entry for it but appends its
      smells twice: the project-wide smell count grows while the file count
      does not. */
  lemma ReanalysisDoubleCounts(ln: real -> real, log2: real -> real, a: State, path: string, tree: Module)
    requires Valid(a)
    ensures var b := AnalyzeFile(ln, log2, a, path, tree);
            var c := AnalyzeFile(ln, log2, b, path, tree);
            |c.files| == |b.files|
            && c.smells == a.smells + DetectSmells(path, tree) + DetectSmells(path, tree)
  {
    var b := AnalyzeFile(ln, log2, a, path, tree);
    assert Lookup(b.files, path).Some?;
  }

  // ---------------------------------------------------------------------------
  // compute_project_metrics
  // ---------------------------------------------------------------------------

  function SumLoc(files: seq<FileMetrics>): nat {
    if files == [] then 0 else files[0].loc + SumLoc(files[1..])
  }

  function SumWeightedMi(files: seq<FileMetrics>): real {
    if files == [] then 0.0 else files[0].mi * (files[0].loc as real) + SumWeightedMi(files[1..])
  }

  function SumQuality(files: seq<FileMetrics>): real {
    if files == [] then 0.0 else files[0].quality + SumQuality(files[1..])
  }

  lemma {:induction false} SumBounds(files: seq<FileMetrics>)
    requires forall i :: 0 <= i < |files| ==> WellScored(files[i])
    ensures 0.0 <= SumWeightedMi(files) <= 100.0 * (SumLoc(files) as real)
    ensures 0.0 <= SumQuality(files) <= 5.0 * (|files| as real)
  {
    if files != [] {
      SumBounds(files[1..]);
      var f := files[0];
      assert WellScored(f);
      var l := f.loc as real;
      assert 0.0 <= f.mi * l by {
        assert 0.0 <= f.mi && 0.0 <= l;
      }
      assert f.mi * l <= 100.0 * l by {
        assert (100.0 - f.mi) * l >= 0.0;
      }
    }
  }

  lemma RatioBounds(num: real, den: real, hi: real)
    requires den > 0.0 && 0.0 <= num <= hi * den
    ensures 0.0 <= num / den <= hi
  {
    assert num / den * den == num;
  }

  /** The four severities, in rank order. */
  const AllSeverities: seq<Severity> := [Low, Medium, High, Critical]

  /** `Counter(s.severity for s in smells)`: only the severities that occur. */
  function Distribution(smells: seq<Smell>): (d: map<Severity, nat>)
    ensures forall sev :: sev in d <==> CountSeverity(smells, sev) > 0
    ensures forall sev :: sev in d ==> d[sev] == CountSeverity(smells, sev)
  {
    map sev | sev in AllSeverities && CountSeverity(smells, sev) > 0 :: CountSeverity(smells, sev)
  }

  /** `dist.get(sev, 0)`. */
  function Get(d: map<Severity, nat>, sev: Severity): nat {
    if sev in d then d[sev] else 0
  }

  /** The project report, before rounding and before the per-file entries are
      turned into dictionaries. */
  datatype Report = Report(projectMi: real, avgQuality: real, totalFiles: nat, totalSmells: nat,
                           distribution: map<Severity, nat>, files: seq<FileMetrics>,
                           coverage: Option<real>)

  /** `compute_project_metrics`. With no stored files both averages are zero,
      as is the index when the files hold no statements; otherwise the index is
      the loc-weighted mean of the files' indices and the quality the plain
      mean of their scores. */
  function ComputeProjectMetrics(a: State, coverage: Option<real>): (r: Report)
    ensures r.totalFiles == |a.files| && r.totalSmells == |a.smells|
    ensures r.files == a.files && r.coverage == coverage
    ensures a.files == [] ==> r.projectMi == 0.0 && r.avgQuality == 0.0
    ensures SumLoc(a.files) == 0 ==> r.projectMi == 0.0
    ensures Valid(a) ==> 0.0 <= r.projectMi <= 100.0 && 0.0 <= r.avgQuality <= 5.0
    ensures forall sev :: Get(r.distribution, sev) == CountSeverity(a.smells, sev)
    ensures Get(r.distribution, Low) + Get(r.distribution, Medium)
            + Get(r.distribution, High) + Get(r.distribution, Critical) == r.totalSmells
  {
    var files := a.files;
    var n := |files| as real;
    var totalLoc := SumLoc(files);
    var avg := if files == [] then 0.0 else SumQuality(files) / n;
    var mi := if files == [] || totalLoc == 0 then 0.0 else SumWeightedMi(files) / (totalLoc as real);
    assert Valid(a) ==> 0.0 <= mi <= 100.0 && 0.0 <= avg <= 5.0 by {
      if Valid(a) {
        SumBounds(files);
        if files != [] {
          RatioBounds(SumQuality(files), n, 5.0);
          if totalLoc != 0 {
            RatioBounds(SumWeightedMi(files), totalLoc as real, 100.0);
          }
        }
      }
    }
    SeverityCountsPartition(a.smells);
    Report(mi, avg, |files|, |a.smells|, Distribution(a.smells), files, coverage)
  }

  /** Re-analysing a stored path leaves the file count alone and raises the
      smell count by that file's smells once more. */
  lemma ReanalysisInflatesReport(ln: real -> real, log2: real -> real, a: State, path: string, tree: Module)
    requires Valid(a)
    requires Lookup(a.files, path).Some?
    ensures var b := AnalyzeFile(ln, log2, a, path, tree);
            var before := ComputeProjectMetrics(a, None);
            var after := ComputeProjectMetrics(b, None);
            after.totalFiles == before.totalFiles
            && after.totalSmells == before.totalSmells + |DetectSmells(path, tree)|
  {
  }

  // ---------------------------------------------------------------------------
  // analyze_project
  // ---------------------------------------------------------------------------

  /** A `.py` file found under the project: its path, its base name and its
      tree (`None` when it does not parse). */
  datatype SourceFile = SourceFile(path: string, name: string, tree: Option<Module>)

  /** A file `analyze_project` reads: its name does not start with `__`. */
  predicate IsPublic(f: SourceFile) {
    !Text.StartsWith(f.name, "__")
  }

  /** The loop of `analyze_project` over the files found, in order: the first
      public file that does not parse ends the run with its `SyntaxError`. */
  function AnalyzeAll(ln: real -> real, log2: real -> real, a: State, fs: seq<SourceFile>): (r: Result<State, string>)
    ensures r.Success? <==> PublicParse(fs)
    ensures r.Failure? ==> r.error == "SyntaxError"
    decreases |fs|
  {
    if fs == [] then Success(a)
    else
      PublicParseCons(fs);
      if !IsPublic(fs[0]) then AnalyzeAll(ln, log2, a, fs[1..])
      else if fs[0].tree.None? then Failure("SyntaxError")
      else AnalyzeAll(ln, log2, AnalyzeFile(ln, log2, a, fs[0].path, fs[0].tree.value), fs[1..])
  }

  /** Every public file parses. */
  predicate PublicParse(fs: seq<SourceFile>) {
    forall i :: 0 <= i < |fs| && IsPublic(fs[i]) ==> fs[i].tree.Some?
  }

  lemma PublicParseCons(fs: seq<SourceFile>)
    requires fs != []
    ensures PublicParse(fs) <==> (IsPublic(fs[0]) ==> fs[0].tree.Some?) && PublicParse(fs[1..])
  {
    if (IsPublic(fs[0]) ==> fs[0].tree.Some?) && PublicParse(fs[1..]) {
      forall i | 0 <= i < |fs| && IsPublic(fs[i])
        ensures fs[i].tree.Some?
      {
        if i > 0 {
          assert fs[i] == fs[1..][i - 1];
        }
      }
    }
  }

  /** A successful scan keeps the state valid, keeps every path stored before,
      and stores every public path it read. */
  lemma {:induction false} AnalyzeAllStores(ln: real -> real, log2: real -> real, a: State, fs: seq<SourceFile>)
    requires Valid(a) && AnalyzeAll(ln, log2, a, fs).Success?
    ensures var b := AnalyzeAll(ln, log2, a, fs).value;
            && Valid(b)
            && (forall p :: Lookup(a.files, p).Some? ==> Lookup(b.files, p).Some?)
            && (forall i :: 0 <= i < |fs| && IsPublic(fs[i]) ==> Lookup(b.files, fs[i].path).Some?)
    decreases |fs|
  {
    if fs != [] {
      var rest := fs[1..];
      var a' := if IsPublic(fs[0]) then AnalyzeFile(ln, log2, a, fs[0].path, fs[0].tree.value) else a;
      assert AnalyzeAll(ln, log2, a, fs) == AnalyzeAll(ln, log2, a', rest);
      AnalyzeAllStores(ln, log2, a', rest);
      forall i | 0 <= i < |fs| && IsPublic(fs[i])
        ensures Lookup(AnalyzeAll(ln, log2, a', rest).value.files, fs[i].path).Some?
      {
        if i > 0 {
          assert fs[i] == rest[i - 1];
        }
      }
    }
  }

  /** A successful scan leaves every path that no public file has untouched. */
  lemma {:induction false} AnalyzeAllFrames(ln: real -> real, log2: real -> real, a: State, fs: seq<SourceFile>, p: string)
    requires AnalyzeAll(ln, log2, a, fs).Success?
    requires forall i :: 0 <= i < |fs| && IsPublic(fs[i]) ==> fs[i].path != p
    ensures Lookup(AnalyzeAll(ln, log2, a, fs).value.files, p) == Lookup(a.files, p)
    decreases |fs|
  {
    if fs != [] {
      var rest := fs[1..];
      assert forall i :: 0 <= i < |rest| && IsPublic(rest[i]) ==> rest[i].path != p by {
        forall i | 0 <= i < |rest| && IsPublic(rest[i])
          ensures rest[i].path != p
        {
          assert rest[i] == fs[i + 1];
        }
      }
      if IsPublic(fs[0]) {
        var a' := AnalyzeFile(ln, log2, a, fs[0].path, fs[0].tree.value);
        AnalyzeAllFrames(ln, log2, a', rest, p);
      } else {
        AnalyzeAllFrames(ln, log2, a, rest, p);
      }
    }
  }

  /** `analyze_project`: analyse every public file found, then report. A
      successful run reports at least one file per distinct public path, with
      averages inside their bounds. */
  function AnalyzeProject(ln: real -> real, log2: real -> real, fs: seq<SourceFile>): (r: Result<Report, string>)
    ensures r.Success? <==> PublicParse(fs)
    ensures r.Success? ==> 0.0 <= r.value.projectMi <= 100.0 && 0.0 <= r.value.avgQuality <= 5.0
    ensures r.Success? ==> forall i :: 0 <= i < |fs| && IsPublic(fs[i]) ==>
              Lookup(r.value.files, fs[i].path).Some?
    ensures r.Success? ==> forall p :: Lookup(r.value.files, p).Some? ==>
              exists i :: 0 <= i < |fs| && IsPublic(fs[i]) && fs[i].path == p
  {
    match AnalyzeAll(ln, log2, Initial, fs)
    case Failure(e) => Failure(e)
    case Success(a) =>
      AnalyzeAllStores(ln, log2, Initial, fs);
      assert forall p :: Lookup(a.files, p).Some? ==>
               exists i :: 0 <= i < |fs| && IsPublic(fs[i]) && fs[i].path == p by {
        forall p | Lookup(a.files, p).Some?
          ensures exists i :: 0 <= i < |fs| && IsPublic(fs[i]) && fs[i].path == p
        {
          if forall i :: 0 <= i < |fs| && IsPublic(fs[i]) ==> fs[i].path != p {
            AnalyzeAllFrames(ln, log2, Initial, fs, p);
          }
        }
      }
      Success(ComputeProjectMetrics(a, None))
  }
}
