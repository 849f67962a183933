/**
  The first nine smell detectors of `analyze_file`. Each one walks the parsed
  module with `ast.walk` and reports its smells in walk order; the tenth
  detector, unreachable code, lives in its own module.

  Only plain `def` statements are functions to these detectors: `async def`
  never matches `isinstance(node, ast.FunctionDef)`.
 */
module Detectors {
  import opened Wrappers
  import opened Syntax
  import opened Traversal
  import opened Smells
  import opened Metrics
  import Text

  /** The nodes `ast.walk(tree)` yields for a parsed module. */
  function Nodes(tree: Module): seq<Node> {
    Walk(ModuleNode(tree))
  }

  /** A plain (non-async) `def`. */
  predicate IsPlainDef(n: Node) {
    n.StmtNode? && n.stmt.FunctionDef? && !n.stmt.isAsync
  }

  predicate IsClass(n: Node) {
    n.StmtNode? && n.stmt.ClassDef?
  }

  /** The `name` of a definition; other nodes have none. */
  function NameOf(n: Node): string {
    if n.StmtNode? && (n.stmt.FunctionDef? || n.stmt.ClassDef?) then n.stmt.name else ""
  }

  /** The `lineno` of a statement or handler; other nodes report line 1. */
  function LineOf(n: Node): int {
    match n
    case StmtNode(s) => s.line
    case HandlerNode(h) => h.line
    case _ => 1
  }

  function Min(a: int, b: int): int {
    if a <= b then a else b
  }

  // ---------------------------------------------------------------------------
  // 1. Long methods
  // ---------------------------------------------------------------------------

  /** `get_method_severity`. */
  function MethodSeverity(lines: int): Severity {
    if lines > 50 then Critical
    else if lines > 35 then High
    else if lines > 25 then Medium
    else Low
  }

  predicate IsLongMethod(n: Node) {
    IsPlainDef(n) && CountLines(n) > 20
  }

  function LongMethodSmell(file: string, n: Node): Smell {
    var lines := CountLines(n);
    Smell(LongMethod, file, NameOf(n), LineOf(n), MethodSeverity(lines), MethodLines(lines))
  }

  /** One smell per plain `def` whose `count_lines` exceeds 20. */
  function LongMethods(file: string, tree: Module): (r: seq<Smell>)
    ensures forall s :: s in r <==> exists n :: n in Nodes(tree) && IsLongMethod(n) && s == LongMethodSmell(file, n)
    ensures |r| == Count(Nodes(tree), IsLongMethod)
  {
    var f := (n: Node) => if IsLongMethod(n) then [LongMethodSmell(file, n)] else [];
    FlatMapOfOptional(Nodes(tree), f, IsLongMethod, n => LongMethodSmell(file, n));
    FlatMap(Nodes(tree), f)
  }

  /** For a `def` whose body holds only simple statements, the smell fires from
      twenty body statements on (the `def` counts itself), is critical from fifty,
      and severities rise with length. */
  lemma LongMethodThresholds(s: Stmt)
    requires s.FunctionDef? && !s.isAsync
    requires forall i :: 0 <= i < |s.body| ==> IsSimple(s.body[i])
    ensures IsLongMethod(StmtNode(s)) <==> |s.body| >= 20
    ensures MethodSeverity(CountLines(StmtNode(s))) == Critical <==> |s.body| >= 50
    ensures MethodSeverity(CountLines(StmtNode(s))) == Low <==> |s.body| <= 24
  {
    DefLinesCountItself(s);
  }

  /** Longer methods never get a lower severity. */
  lemma MethodSeverityMonotone(a: int, b: int)
    requires a <= b
    ensures MethodSeverity(a).Rank() <= MethodSeverity(b).Rank()
  {
  }

  // ---------------------------------------------------------------------------
  // 2. God classes
  // ---------------------------------------------------------------------------

  /** The plain `def`s anywhere inside `n`, nested functions included. */
  function MethodCount(n: Node): nat {
    Count(Walk(n), IsPlainDef)
  }

  function ClassSeverity(lines: int, methods: int): Severity {
    if lines > 200 || methods > 15 then Critical else High
  }

  predicate IsGodClass(n: Node) {
    IsClass(n) && (CountLines(n) > 100 || MethodCount(n) > 10)
  }

  function GodClassSmell(file: string, n: Node): Smell {
    var lines := CountLines(n);
    var methods := MethodCount(n);
    Smell(GodClass, file, NameOf(n), LineOf(n), ClassSeverity(lines, methods), ClassSize(lines, methods))
  }

  /** One smell per class longer than 100 statements or holding more than ten
      plain `def`s. */
  function GodClasses(file: string, tree: Module): (r: seq<Smell>)
    ensures forall s :: s in r <==> exists n :: n in Nodes(tree) && IsGodClass(n) && s == GodClassSmell(file, n)
    ensures |r| == Count(Nodes(tree), IsGodClass)
  {
    var f := (n: Node) => if IsGodClass(n) then [GodClassSmell(file, n)] else [];
    FlatMapOfOptional(Nodes(tree), f, IsGodClass, n => GodClassSmell(file, n));
    FlatMap(Nodes(tree), f)
  }

  lemma {:induction false} CountWeaker(ns: seq<Node>, p: Node -> bool, q: Node -> bool)
    requires forall n :: p(n) ==> q(n)
    ensures Count(ns, p) <= Count(ns, q)
  {
    if ns != [] {
      CountWeaker(ns[1..], p, q);
    }
  }

  /** A class always counts more statements than it holds methods, because the
      class statement and every `def` are statements themselves: a class flagged
      for its methods alone has between 12 and 100 statements. */
  lemma ClassOutnumbersItsMethods(n: Node)
    requires IsClass(n)
    ensures CountLines(n) >= MethodCount(n) + 1
  {
    var w := Walk(n);
    assert w == [n] + Bfs(Children(n)) by {
      assert [n][1..] + Children(n) == Children(n);
    }
    assert w[1..] == Bfs(Children(n));
    CountWeaker(w[1..], IsPlainDef, IsStmt);
  }

  // ---------------------------------------------------------------------------
  // 3. Deep nesting
  // ---------------------------------------------------------------------------

  function NestingSeverity(depth: int): Severity {
    if depth > 6 then High else Medium
  }

  /** At most one smell per file, at line 1, when the file's maximal nesting
      exceeds four levels. */
  function DeepNestingSmells(file: string, tree: Module): (r: seq<Smell>)
    ensures |r| <= 1
    ensures r != [] <==> MaxNesting(tree) > 4
    ensures forall s :: s in r ==>
              && s.kind == DeepNesting && s.file == file && s.line == 1
              && s.nodeName == "complex logic" && s.detail == NestingDepth(MaxNesting(tree))
              && (s.severity == High <==> MaxNesting(tree) > 6)
              && (s.severity == Medium <==> MaxNesting(tree) <= 6)
  {
    var depth := MaxNesting(tree);
    if depth > 4 then [Smell(DeepNesting, file, "complex logic", 1, NestingSeverity(depth), NestingDepth(depth))]
    else []
  }

  // ---------------------------------------------------------------------------
  // 4. Long parameter lists
  // ---------------------------------------------------------------------------

  /** Only the plain positional parameters count, `self` included. */
  function ParamCount(n: Node): nat {
    if n.StmtNode? && n.stmt.FunctionDef? then |n.stmt.params.args| else 0
  }

  function ParamSeverity(count: int): Severity {
    if count > 6 then High else Medium
  }

  predicate HasLongParamList(n: Node) {
    IsPlainDef(n) && ParamCount(n) > 4
  }

  function LongParamSmell(file: string, n: Node): Smell {
    Smell(LongParameterList, file, NameOf(n), LineOf(n), ParamSeverity(ParamCount(n)), Detail.ParamCount(ParamCount(n)))
  }

  /** One smell per plain `def` with more than four positional parameters. */
  function LongParameterLists(file: string, tree: Module): (r: seq<Smell>)
    ensures forall s :: s in r <==> exists n :: n in Nodes(tree) && HasLongParamList(n) && s == LongParamSmell(file, n)
    ensures |r| == Count(Nodes(tree), HasLongParamList)
  {
    var f := (n: Node) => if HasLongParamList(n) then [LongParamSmell(file, n)] else [];
    FlatMapOfOptional(Nodes(tree), f, HasLongParamList, n => LongParamSmell(file, n));
    FlatMap(Nodes(tree), f)
  }

  /** Only `node.args.args` counts: positional-only parameters, `*args`,
      keyword-only parameters and `**kwargs` never change whether the smell fires. */
  lemma KeywordOnlyParamsIgnored(s: Stmt, posonly: seq<Arg>, vararg: Option<Arg>, kwonly: seq<Arg>, kwarg: Option<Arg>)
    requires s.FunctionDef? && !s.isAsync
    ensures HasLongParamList(StmtNode(s.(params := s.params.(posonly := posonly, vararg := vararg, kwonly := kwonly, kwarg := kwarg))))
            == HasLongParamList(StmtNode(s))
  {
  }

  // ---------------------------------------------------------------------------
  // 5. Missing type hints
  // ---------------------------------------------------------------------------

  /** Some positional parameter carries an annotation. */
  predicate HasAnnotatedArg(args: seq<Arg>) {
    exists i :: 0 <= i < |args| && args[i].annotation.Some?
  }

  predicate LacksHints(n: Node) {
    IsPlainDef(n) && !HasAnnotatedArg(n.stmt.params.args) && n.stmt.returnHint.None?
  }

  function HintSeverity(count: int): Severity {
    if count > 2 then Medium else Low
  }

  function MissingHintsSmell(file: string, n: Node): Smell {
    Smell(MissingTypeHints, file, NameOf(n), LineOf(n), HintSeverity(ParamCount(n)), NoHints)
  }

  /** One smell per plain `def` with neither an annotated positional parameter
      nor a return annotation. */
  function MissingHints(file: string, tree: Module): (r: seq<Smell>)
    ensures forall s :: s in r <==> exists n :: n in Nodes(tree) && LacksHints(n) && s == MissingHintsSmell(file, n)
    ensures |r| == Count(Nodes(tree), LacksHints)
  {
    var f := (n: Node) => if LacksHints(n) then [MissingHintsSmell(file, n)] else [];
    FlatMapOfOptional(Nodes(tree), f, LacksHints, n => MissingHintsSmell(file, n));
    FlatMap(Nodes(tree), f)
  }

  /** A single annotation on any positional parameter, or a return annotation,
      silences the smell; annotations on keyword-only parameters do not. */
  lemma OneHintSuffices(s: Stmt, i: nat)
    requires s.FunctionDef? && !s.isAsync && i < |s.params.args|
    ensures !LacksHints(StmtNode(s.(params := s.params.(args := s.params.args[i := s.params.args[i].(annotation := Some(Name("int", Load)))]))))
    ensures s.returnHint.None? && !HasAnnotatedArg(s.params.args) ==>
            forall extra: seq<Arg> :: LacksHints(StmtNode(s.(params := s.params.(kwonly := extra))))
  {
    var args := s.params.args[i := s.params.args[i].(annotation := Some(Name("int", Load)))];
    assert args[i].annotation.Some?;
  }

  // ---------------------------------------------------------------------------
  // 6. Unused imports
  // ---------------------------------------------------------------------------

  /** The top-level package each alias of an import binds: `a` for `import a.b`
      and for `from m import a.b`; the `as` name is ignored. */
  function ImportedNames(n: Node): seq<string> {
    if n.StmtNode? && (n.stmt.Import? || n.stmt.ImportFrom?) then
      var names := n.stmt.names;
      seq(|names|, i requires 0 <= i < |names| => Text.BeforeFirst(names[i].name, '.'))
    else []
  }

  /** The identifier of a bare name that is read. */
  function LoadedName(n: Node): seq<string> {
    if n.ExprNode? && n.expr.Name? && n.expr.ctx == Load then [n.expr.id] else []
  }

  /** Imported names in walk order, repetitions included. */
  function Imported(tree: Module): seq<string> {
    FlatMap(Nodes(tree), ImportedNames)
  }

  function Used(tree: Module): set<string> {
    set x | x in FlatMap(Nodes(tree), LoadedName)
  }

  /** `imported_names - used_names`. */
  function Unused(tree: Module): set<string> {
    (set x | x in Imported(tree)) - Used(tree)
  }

  predicate Distinct(s: seq<string>) {
    forall i, j :: 0 <= i < j < |s| ==> s[i] != s[j]
  }

  /** The members of `s` that are not in `drop`, in order. */
  function Without(s: seq<string>, drop: set<string>): (r: seq<string>)
    ensures forall x :: x in r <==> x in s && x !in drop
  {
    if s == [] then []
    else (if s[0] in drop then [] else [s[0]]) + Without(s[1..], drop)
  }

  /** The first occurrence of each member of `s`, in order. */
  function Dedup(s: seq<string>): (r: seq<string>)
    ensures Distinct(r)
    ensures forall x :: x in r <==> x in s
  {
    if s == [] then []
    else
      var init := s[..|s| - 1];
      var d := Dedup(init);
      assert s == init + [s[|s| - 1]];
      if s[|s| - 1] in d then d else d + [s[|s| - 1]]
  }

  lemma {:induction false} DistinctCard(s: seq<string>)
    requires Distinct(s)
    ensures |set x | x in s| == |s|
  {
    if s != [] {
      var t := s[1..];
      assert Distinct(t) by {
        forall i, j | 0 <= i < j < |t|
          ensures t[i] != t[j]
        {
          assert t[i] == s[i + 1] && t[j] == s[j + 1];
        }
      }
      DistinctCard(t);
      assert s[0] !in t by {
        forall j | 0 <= j < |t|
          ensures t[j] != s[0]
        {
          assert t[j] == s[j + 1];
        }
      }
      assert (set x | x in s) == {s[0]} + (set x | x in t);
    }
  }

  /** The unused names in the order the model lists them: first imports first. */
  function UnusedInOrder(tree: Module): (r: seq<string>)
    ensures Distinct(r)
    ensures forall x :: x in r <==> x in Unused(tree)
    ensures |r| == |Unused(tree)|
  {
    var r := Dedup(Without(Imported(tree), Used(tree)));
    DistinctCard(r);
    assert (set x | x in r) == Unused(tree);
    r
  }

  /** At most one smell per file, at line 1, naming up to three unused imports,
      distinct, joined by ", ". */
  function UnusedImportSmells(file: string, tree: Module): (r: seq<Smell>)
    ensures |r| <= 1
    ensures r != [] <==> Unused(tree) != {}
    ensures forall s :: s in r ==>
              s.kind == UnusedImports && s.file == file && s.line == 1 && s.severity == Low
              && s.detail.UnusedNames?
              && |s.detail.names| == Min(3, |Unused(tree)|)
              && Distinct(s.detail.names)
              && (forall x :: x in s.detail.names ==> x in Unused(tree))
              && s.nodeName == Text.Join(", ", s.detail.names)
  {
    var all := UnusedInOrder(tree);
    if all == [] then
      assert Unused(tree) == {};
      []
    else
      var shown := all[..Min(3, |all|)];
      PrefixOfDistinct(all, Min(3, |all|));
      [Smell(UnusedImports, file, Text.Join(", ", shown), 1, Low, UnusedNames(shown))]
  }

  /** A prefix of a list without repeats has no repeats, and its members come
      from the list. */
  lemma PrefixOfDistinct(s: seq<string>, k: nat)
    requires Distinct(s) && k <= |s|
    ensures Distinct(s[..k]) && |s[..k]| == k
    ensures forall x :: x in s[..k] ==> x in s
  {
    forall i, j | 0 <= i < j < k
      ensures s[..k][i] != s[..k][j]
    {
      assert s[..k][i] == s[i] && s[..k][j] == s[j];
    }
  }

  // ---------------------------------------------------------------------------
  // 7. Many local variables
  // ---------------------------------------------------------------------------

  /** The bare names among the elements of a tuple target. */
  function TupleNames(elts: seq<Expr>): (r: seq<string>)
    ensures forall x :: x in r <==> exists i :: 0 <= i < |elts| && elts[i].Name? && elts[i].id == x
  {
    if elts == [] then []
    else
      var rest := TupleNames(elts[1..]);
      assert forall x :: x in rest <==> exists i :: 1 <= i < |elts| && elts[i].Name? && elts[i].id == x by {
        forall x
          ensures x in rest <==> exists i :: 1 <= i < |elts| && elts[i].Name? && elts[i].id == x
        {
          if x in rest {
            var i :| 0 <= i < |elts[1..]| && elts[1..][i].Name? && elts[1..][i].id == x;
            assert elts[i + 1].Name? && elts[i + 1].id == x;
          }
          if exists i :: 1 <= i < |elts| && elts[i].Name? && elts[i].id == x {
            var i :| 1 <= i < |elts| && elts[i].Name? && elts[i].id == x;
            assert elts[1..][i - 1].Name? && elts[1..][i - 1].id == x;
          }
        }
      }
      (if elts[0].Name? then [elts[0].id] else []) + rest
  }

  /** The names one assignment target binds: a bare name, or the bare names
      directly inside a tuple; nested tuples, attributes and subscripts bind none. */
  function TargetNames(e: Expr): seq<string> {
    match e
    case Name(id, _) => [id]
    case Tuple(elts, _) => TupleNames(elts)
    case _ => []
  }

  function TargetsNames(targets: seq<Expr>): seq<string> {
    if targets == [] then [] else TargetNames(targets[0]) + TargetsNames(targets[1..])
  }

  /** Names bound by an `=` or annotated assignment node; augmented assignments,
      loop targets and `with ... as` bind none. */
  function BoundNames(n: Node): seq<string> {
    if n.StmtNode? && n.stmt.Assign? then TargetsNames(n.stmt.targets)
    else if n.StmtNode? && n.stmt.AnnAssign? && n.stmt.target.Name? then [n.stmt.target.id]
    else []
  }

  /** The distinct names assigned anywhere inside `n`, nested functions included. */
  function Locals(n: Node): set<string> {
    set x | x in FlatMap(Walk(n), BoundNames)
  }

  function LocalsSeverity(count: int): Severity {
    if count <= 15 then Medium else High
  }

  predicate HasManyLocals(n: Node) {
    IsPlainDef(n) && |Locals(n)| > 8
  }

  function ManyLocalsSmell(file: string, n: Node): Smell {
    Smell(ManyLocalVariables, file, NameOf(n), LineOf(n), LocalsSeverity(|Locals(n)|), LocalCount(|Locals(n)|))
  }

  /** One smell per plain `def` that assigns more than eight distinct names. */
  function ManyLocals(file: string, tree: Module): (r: seq<Smell>)
    ensures forall s :: s in r <==> exists n :: n in Nodes(tree) && HasManyLocals(n) && s == ManyLocalsSmell(file, n)
    ensures |r| == Count(Nodes(tree), HasManyLocals)
  {
    var f := (n: Node) => if HasManyLocals(n) then [ManyLocalsSmell(file, n)] else [];
    FlatMapOfOptional(Nodes(tree), f, HasManyLocals, n => ManyLocalsSmell(file, n));
    FlatMap(Nodes(tree), f)
  }

  // ---------------------------------------------------------------------------
  // 8. Feature envy
  // ---------------------------------------------------------------------------

  /** The base of an attribute access on a bare name: `user` in `user.email`. */
  function AttrBase(n: Node): seq<string> {
    if n.ExprNode? && n.expr.Attribute? && n.expr.value.Name? then [n.expr.value.id] else []
  }

  /** Every attribute base inside `m`, once per access, in walk order. */
  function Bases(m: Node): seq<string> {
    FlatMap(Walk(m), AttrBase)
  }

  /** How often `x` occurs in `xs` (`base_counts[x]`). */
  function Occ(xs: seq<string>, x: string): nat {
    if xs == [] then 0 else (if xs[0] == x then 1 else 0) + Occ(xs[1..], x)
  }

  lemma {:induction false} OccPositive(xs: seq<string>, x: string)
    requires x in xs
    ensures Occ(xs, x) >= 1
  {
    if xs[0] != x {
      OccPositive(xs[1..], x);
    }
  }

  /** The bases other than `self`, in order. */
  function Foreign(bases: seq<string>): (r: seq<string>)
    ensures forall x :: x in r <==> x in bases && x != "self"
  {
    Without(bases, {"self"})
  }

  /** The index of the first member of `s` with the highest count in `bases`:
      `max` keeps the earliest of several equal maxima. */
  function FirstMax(s: seq<string>, bases: seq<string>): (k: nat)
    requires s != []
    ensures k < |s|
    ensures forall j :: 0 <= j < |s| ==> Occ(bases, s[j]) <= Occ(bases, s[k])
    ensures forall j :: 0 <= j < k ==> Occ(bases, s[j]) < Occ(bases, s[k])
  {
    if |s| == 1 then 0
    else
      var k := FirstMax(s[1..], bases);
      assert forall j :: 1 <= j < |s| ==> s[j] == s[1..][j - 1];
      if Occ(bases, s[0]) >= Occ(bases, s[1..][k]) then 0 else k + 1
  }

  /** The thresholds: at least five uses of the base, and at least twice as many
      as uses of `self` (counted as one when absent). */
  predicate Envies(bases: seq<string>, b: string) {
    Occ(bases, b) >= 5 && Occ(bases, b) >= 2 * Max(1, Occ(bases, "self"))
  }

  /** The most-used foreign base, when it meets the thresholds. */
  function EnviedBase(bases: seq<string>): (r: Option<string>)
    ensures r.Some? <==> exists b :: b in bases && b != "self" && Envies(bases, b)
    ensures r.Some? ==> r.value in bases && r.value != "self"
    ensures r.Some? ==> forall b :: b in bases && b != "self" ==> Occ(bases, b) <= Occ(bases, r.value)
  {
    var fs := Foreign(bases);
    if fs == [] then None
    else
      var k := FirstMax(fs, bases);
      assert forall b :: b in bases && b != "self" ==> Occ(bases, b) <= Occ(bases, fs[k]) by {
        forall b | b in bases && b != "self"
          ensures Occ(bases, b) <= Occ(bases, fs[k])
        {
          var j :| 0 <= j < |fs| && fs[j] == b;
        }
      }
      if Envies(bases, fs[k]) then Some(fs[k]) else None
  }

  function EnvySmell(file: string, className: string, m: Node, base: string): Smell {
    Smell(FeatureEnvy, file, className + "." + NameOf(m), LineOf(m), Medium, Detail.EnviedBase(base))
  }

  /** The smell for one class-body statement `m`. */
  function EnvyInMethod(file: string, className: string, m: Node): (r: seq<Smell>)
    ensures |r| <= 1
    ensures r != [] <==> IsPlainDef(m) && exists b :: b in Bases(m) && b != "self" && Envies(Bases(m), b)
    ensures forall s :: s in r ==> EnviedBase(Bases(m)).Some? && s == EnvySmell(file, className, m, EnviedBase(Bases(m)).value)
  {
    if !IsPlainDef(m) then []
    else
      match EnviedBase(Bases(m))
      case None => []
      case Some(b) => [EnvySmell(file, className, m, b)]
  }

  lemma {:induction false} FlatMapMemberNode<T>(ns: seq<Node>, f: Node -> seq<T>, x: T)
    ensures x in FlatMap(ns, f) <==> exists n :: n in ns && x in f(n)
  {
    FlatMapMember(ns, f, x);
    if exists n :: n in ns && x in f(n) {
      var n :| n in ns && x in f(n);
      var i :| 0 <= i < |ns| && ns[i] == n;
    }
  }

  lemma StmtsMember<T>(ss: seq<Stmt>, f: Node -> seq<T>, x: T)
    ensures x in FlatMap(Ss(ss), f) <==> exists m :: m in ss && x in f(StmtNode(m))
  {
    FlatMapMemberNode(Ss(ss), f, x);
    if exists n :: n in Ss(ss) && x in f(n) {
      var n :| n in Ss(ss) && x in f(n);
      var i :| 0 <= i < |ss| && n == StmtNode(ss[i]);
      assert ss[i] in ss;
    }
    if exists m :: m in ss && x in f(StmtNode(m)) {
      var m :| m in ss && x in f(StmtNode(m));
      var i :| 0 <= i < |ss| && ss[i] == m;
      assert Ss(ss)[i] == StmtNode(m);
    }
  }

  /** The smells of the methods written directly in class `n`'s body. */
  function EnvyInClass(file: string, n: Node): (r: seq<Smell>)
    ensures IsClass(n) ==>
      forall s :: s in r <==> exists m :: m in n.stmt.body && s in EnvyInMethod(file, n.stmt.name, StmtNode(m))
    ensures !IsClass(n) ==> r == []
  {
    if IsClass(n) then
      var g := (m: Node) => EnvyInMethod(file, n.stmt.name, m);
      forall s
        ensures s in FlatMap(Ss(n.stmt.body), g) <==> exists m :: m in n.stmt.body && s in g(StmtNode(m))
      {
        StmtsMember(n.stmt.body, g, s);
      }
      FlatMap(Ss(n.stmt.body), g)
    else []
  }

  /** Every envy smell belongs to a method written directly in the body of a
      class of the file, and every such method that envies a foreign base is
      reported. */
  function FeatureEnvySmells(file: string, tree: Module): (r: seq<Smell>)
    ensures forall s :: s in r <==> exists c :: c in Nodes(tree) && s in EnvyInClass(file, c)
  {
    var f := (n: Node) => EnvyInClass(file, n);
    forall s
      ensures s in FlatMap(Nodes(tree), f) <==> exists c :: c in Nodes(tree) && s in EnvyInClass(file, c)
    {
      FlatMapMemberNode(Nodes(tree), f, s);
    }
    FlatMap(Nodes(tree), f)
  }

  // ---------------------------------------------------------------------------
  // 9. Exception swallowing
  // ---------------------------------------------------------------------------

  /** A bare `except:` or `except Exception:` (a tuple of types is not broad). */
  predicate IsBroad(h: Handler) {
    h.exnType.None? || (h.exnType.value.Name? && h.exnType.value.id == "Exception")
  }

  /** A handler body that is empty or a lone `pass`. */
  predicate HandlesNothing(h: Handler) {
    h.body == [] || (|h.body| == 1 && h.body[0].Pass?)
  }

  predicate Swallows(n: Node) {
    n.HandlerNode? && IsBroad(n.handler) && HandlesNothing(n.handler)
  }

  function SwallowSmell(file: string, n: Node): Smell {
    Smell(ExceptionSwallowing, file, "<module>", LineOf(n), High, Swallowed)
  }

  /** The smells of one `try` statement's handlers, in handler order. */
  function SwallowedIn(file: string, n: Node): (r: seq<Smell>)
    ensures n.StmtNode? && n.stmt.Try? ==>
      forall s :: s in r <==> exists h :: h in n.stmt.handlers && Swallows(HandlerNode(h)) && s == SwallowSmell(file, HandlerNode(h))
    ensures !(n.StmtNode? && n.stmt.Try?) ==> r == []
  {
    if n.StmtNode? && n.stmt.Try? then
      var hs := Hs(n.stmt.handlers);
      var f := (h: Node) => if Swallows(h) then [SwallowSmell(file, h)] else [];
      FlatMapOfOptional(hs, f, Swallows, h => SwallowSmell(file, h));
      assert forall h :: h in n.stmt.handlers <==> HandlerNode(h) in hs by {
        forall h
          ensures h in n.stmt.handlers <==> HandlerNode(h) in hs
        {
          if h in n.stmt.handlers {
            var i :| 0 <= i < |n.stmt.handlers| && n.stmt.handlers[i] == h;
            assert hs[i] == HandlerNode(h);
          }
        }
      }
      assert forall x :: x in hs ==> x.HandlerNode?;
      FlatMap(hs, f)
    else []
  }

  /** The smells of every `try` of the file, in walk order: together with
      `SwallowedIn`, every swallowing smell comes from a broad, empty handler of
      some `try` of the file, at the handler's line, and every such handler is
      reported. */
  function SwallowingSmells(file: string, tree: Module): (r: seq<Smell>)
    ensures forall s :: s in r <==> exists t :: t in Nodes(tree) && s in SwallowedIn(file, t)
  {
    var f := (n: Node) => SwallowedIn(file, n);
    forall s
      ensures s in FlatMap(Nodes(tree), f) <==> exists n :: n in Nodes(tree) && s in SwallowedIn(file, n)
    {
      FlatMapMemberNode(Nodes(tree), f, s);
    }
    FlatMap(Nodes(tree), f)
  }
}
