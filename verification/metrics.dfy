/**
  The tree-walking helpers and metric calculators of the analyzer:
  `count_lines`, `find_max_nesting`, `cyclomatic_complexity`, `halstead_volume`,
  `calculate_mi`, and the per-file quality score.

  Natural and binary logarithms are parameters (`ln`, `log2`): only the bounds
  that hold for every logarithm are proved, never exact floating-point values.
 */
module Metrics {
  import opened Wrappers
  import opened Syntax
  import opened Traversal
  import opened Smells

  function Max(a: int, b: int): int {
    if a >= b then a else b
  }

  // ---------------------------------------------------------------------------
  // count_lines
  // ---------------------------------------------------------------------------

  predicate IsStmt(n: Node) {
    n.StmtNode?
  }

  /** `count_lines`: the statements among the nodes of `ast.walk(n)`, so a
      definition counts itself as well as its body. */
  function CountLines(n: Node): nat {
    Count(Walk(n), IsStmt)
  }

  /** A statement whose children are all expressions: it contains no other statement. */
  predicate IsSimple(s: Stmt) {
    !(s.FunctionDef? || s.ClassDef? || s.If? || s.For? || s.While? || s.With? || s.Try? || s.TryStar? || s.Match?)
  }

  lemma {:induction false} ExprHoldsNoStmt(n: Node)
    requires IsExprLevel(n)
    ensures TreeTally(n, Indicator(IsStmt)) == 0
    decreases NodeSize(n), 0
  {
    ChildrenSmaller(n);
    ExprLevelChildren(n);
    ExprForestHoldsNoStmt(Children(n));
    assert !IsStmt(n);
  }

  lemma {:induction false} ExprForestHoldsNoStmt(ns: seq<Node>)
    requires forall i :: 0 <= i < |ns| ==> IsExprLevel(ns[i])
    ensures ForestTally(ns, Indicator(IsStmt)) == 0
    decreases SumSize(ns), 1
  {
    if ns != [] {
      SumSizeCons(ns);
      ExprHoldsNoStmt(ns[0]);
      ExprForestHoldsNoStmt(ns[1..]);
    }
  }

  lemma SimpleStmtLines(s: Stmt)
    requires IsSimple(s)
    ensures TreeTally(StmtNode(s), Indicator(IsStmt)) == 1
  {
    var cs := StmtChildren(s);
    assert forall i :: 0 <= i < |cs| ==> cs[i].ExprNode?;
    ExprForestHoldsNoStmt(cs);
    assert IsStmt(StmtNode(s));
  }

  lemma {:induction false} SimpleBlockLines(ss: seq<Stmt>)
    requires forall i :: 0 <= i < |ss| ==> IsSimple(ss[i])
    ensures ForestTally(Ss(ss), Indicator(IsStmt)) == |ss|
  {
    if ss != [] {
      SimpleStmtLines(ss[0]);
      assert Ss(ss)[1..] == Ss(ss[1..]);
      SimpleBlockLines(ss[1..]);
    }
  }

  /** `count_lines` of a definition whose body holds only simple statements is
      the body length plus one: the `def` line itself is counted, so twenty body
      statements already score 21. */
  lemma DefLinesCountItself(s: Stmt)
    requires s.FunctionDef?
    requires forall i :: 0 <= i < |s.body| ==> IsSimple(s.body[i])
    ensures CountLines(StmtNode(s)) == |s.body| + 1
  {
    var head := [ParamsNode(s.params)];
    var tail := Es(s.decorators) + Opt(s.returnHint);
    assert StmtChildren(s) == head + Ss(s.body) + tail;
    ForestTallyAppend(head + Ss(s.body), tail, Indicator(IsStmt));
    ForestTallyAppend(head, Ss(s.body), Indicator(IsStmt));
    ExprForestHoldsNoStmt(head);
    ExprForestHoldsNoStmt(tail);
    SimpleBlockLines(s.body);
    WalkCount(StmtNode(s), IsStmt);
  }

  // ---------------------------------------------------------------------------
  // find_max_nesting
  // ---------------------------------------------------------------------------

  /** The constructs that deepen nesting: if, (async) for, while, (async) with, try. */
  predicate IsControl(n: Node) {
    n.StmtNode? && (n.stmt.If? || n.stmt.For? || n.stmt.While? || n.stmt.With? || n.stmt.Try?)
  }

  function Step(n: Node): nat {
    if IsControl(n) then 1 else 0
  }

  /** `find_max_nesting(n, depth)`: the largest depth reached in the subtree of
      `n`, where each child that is a control construct is visited one level
      deeper than its parent and every other child at the parent's level. */
  function Nesting(n: Node, depth: nat): nat
    decreases NodeSize(n), 0
  {
    ChildrenSmaller(n);
    Max(depth, NestingAll(Children(n), depth))
  }

  /** The deepest level reached below siblings `ns` whose parent is at `depth`. */
  function NestingAll(ns: seq<Node>, depth: nat): nat
    decreases SumSize(ns), 1
  {
    if ns == [] then depth
    else
      SumSizeCons(ns);
      Max(Nesting(ns[0], depth + Step(ns[0])), NestingAll(ns[1..], depth))
  }

  /** The nesting depth of a whole module, measured once per file. */
  function MaxNesting(tree: Module): nat {
    Nesting(ModuleNode(tree), 0)
  }

  /** Starting deeper shifts the result by the same amount: the measure depends
      only on how many control constructs enclose each node. */
  lemma {:induction false} NestingShift(n: Node, d: nat)
    ensures Nesting(n, d) == d + Nesting(n, 0)
    decreases NodeSize(n), 0
  {
    ChildrenSmaller(n);
    NestingAllShift(Children(n), d);
  }

  lemma {:induction false} NestingAllShift(ns: seq<Node>, d: nat)
    ensures NestingAll(ns, d) == d + NestingAll(ns, 0)
    decreases SumSize(ns), 1
  {
    if ns != [] {
      SumSizeCons(ns);
      NestingShift(ns[0], d + Step(ns[0]));
      NestingShift(ns[0], Step(ns[0]));
      NestingAllShift(ns[1..], d);
    }
  }

  lemma {:induction false} NestingAtLeast(ns: seq<Node>, d: nat)
    ensures NestingAll(ns, d) >= d
  {
    if ns != [] {
      NestingAtLeast(ns[1..], d);
    }
  }

  lemma {:induction false} NestingAllAppend(a: seq<Node>, b: seq<Node>, d: nat)
    ensures NestingAll(a + b, d) == Max(NestingAll(a, d), NestingAll(b, d))
  {
    if a == [] {
      assert a + b == b;
      NestingAtLeast(b, d);
    } else {
      assert (a + b)[1..] == a[1..] + b;
      NestingAllAppend(a[1..], b, d);
    }
  }

  lemma {:induction false} ExprIsFlat(n: Node, d: nat)
    requires IsExprLevel(n)
    ensures Nesting(n, d) == d
    decreases NodeSize(n), 0
  {
    ChildrenSmaller(n);
    ExprLevelChildren(n);
    ExprForestIsFlat(Children(n), d);
  }

  lemma {:induction false} ExprForestIsFlat(ns: seq<Node>, d: nat)
    requires forall i :: 0 <= i < |ns| ==> IsExprLevel(ns[i])
    ensures NestingAll(ns, d) == d
    decreases SumSize(ns), 1
  {
    if ns != [] {
      SumSizeCons(ns);
      assert Step(ns[0]) == 0;
      ExprIsFlat(ns[0], d);
      ExprForestIsFlat(ns[1..], d);
      assert NestingAll(ns, d) == Max(Nesting(ns[0], d), NestingAll(ns[1..], d));
    }
  }

  /** Function and class definitions neither deepen nor reset the nesting: the
      body of a `def` is measured at the level of the `def` itself. */
  lemma DefIsTransparent(s: Stmt, d: nat)
    requires s.FunctionDef? || s.ClassDef?
    ensures Nesting(StmtNode(s), d) == NestingAll(Ss(s.body), d)
  {
    var head, tail;
    if s.FunctionDef? {
      head := [ParamsNode(s.params)];
      tail := Es(s.decorators) + Opt(s.returnHint);
    } else {
      head := Es(s.bases);
      tail := Es(s.decorators);
    }
    assert StmtChildren(s) == head + Ss(s.body) + tail;
    NestingAllAppend(head + Ss(s.body), tail, d);
    NestingAllAppend(head, Ss(s.body), d);
    ExprForestIsFlat(head, d);
    ExprForestIsFlat(tail, d);
    NestingAtLeast(Ss(s.body), d);
  }

  /** Entering an `if` moves its branches one level down; an `elif` is an `if`
      inside `orelse`, so each `elif` goes one level deeper still. */
  lemma IfDeepens(s: Stmt, d: nat)
    requires s.If?
    ensures NestingAll([StmtNode(s)], d)
            == Max(NestingAll(Ss(s.body), d + 1), NestingAll(Ss(s.orelse), d + 1))
  {
    var n := StmtNode(s);
    IfChildrenNesting(s, d + 1);
    assert [n][1..] == [];
  }

  /** Below an `if`, the test adds no depth, so the deepest level is that of
      the deeper branch. */
  lemma IfChildrenNesting(s: Stmt, d: nat)
    requires s.If?
    ensures NestingAll(Children(StmtNode(s)), d) == Max(NestingAll(Ss(s.body), d), NestingAll(Ss(s.orelse), d))
    ensures NestingAll(Ss(s.body), d) >= d && NestingAll(Ss(s.orelse), d) >= d
  {
    var test := [ExprNode(s.test)];
    assert Children(StmtNode(s)) == test + Ss(s.body) + Ss(s.orelse);
    NestingAllAppend(test + Ss(s.body), Ss(s.orelse), d);
    NestingAllAppend(test, Ss(s.body), d);
    ExprForestIsFlat(test, d);
    NestingAtLeast(Ss(s.body), d);
    NestingAtLeast(Ss(s.orelse), d);
  }

  // ---------------------------------------------------------------------------
  // cyclomatic_complexity
  // ---------------------------------------------------------------------------

  /** Decision points a node adds: one per `if`, (non-async) `for`, `while` and
      `assert`; one fewer than its operand count per `and`/`or` chain. */
  function Decisions(n: Node): int {
    match n
    case StmtNode(s) =>
      if s.If? || (s.For? && !s.isAsync) || s.While? || s.Assert? then 1 else 0
    case ExprNode(e) =>
      if e.BoolOp? then |e.values| - 1 else 0
    case _ => 0
  }

  /** `cyclomatic_complexity`: one plus the decision points of every node of the walk. */
  function CyclomaticComplexity(tree: Module): int {
    1 + Tally(Walk(ModuleNode(tree)), Decisions)
  }

  /** Python's parser gives every `and`/`or` chain at least two operands. */
  ghost predicate BoolOpsWellFormed(tree: Module) {
    forall n :: n in Walk(ModuleNode(tree)) && n.ExprNode? && n.expr.BoolOp? ==> |n.expr.values| >= 2
  }

  lemma {:induction false} TallyNonNegative(ns: seq<Node>, f: Node -> int)
    requires forall i :: 0 <= i < |ns| ==> f(ns[i]) >= 0
    ensures Tally(ns, f) >= 0
  {
    if ns != [] {
      TallyNonNegative(ns[1..], f);
    }
  }

  /** On parser-produced trees the complexity is at least one, and it counts
      exactly the decision points of the tree's structure. */
  lemma ComplexityAtLeastOne(tree: Module)
    requires BoolOpsWellFormed(tree)
    ensures CyclomaticComplexity(tree) >= 1
    ensures CyclomaticComplexity(tree) == 1 + TreeTally(ModuleNode(tree), Decisions)
  {
    var w := Walk(ModuleNode(tree));
    assert forall i :: 0 <= i < |w| ==> Decisions(w[i]) >= 0 by {
      forall i | 0 <= i < |w|
        ensures Decisions(w[i]) >= 0
      {
        assert w[i] in w;
      }
    }
    TallyNonNegative(w, Decisions);
    WalkTally(ModuleNode(tree), Decisions);
  }

  // ---------------------------------------------------------------------------
  // halstead_volume
  // ---------------------------------------------------------------------------

  /** The fixed operator vocabulary of the simplified volume. */
  const Operators: set<string> := {"+", "-", "*", "/", "==", "!=", "and", "or"}

  /** An operand's vocabulary entry: a bare name by its identifier, anything
      else by its node class name (`type(node).__name__`). */
  function OperandName(e: Expr): string {
    match e
    case Name(id, _) => id
    case Attribute(_, _, _) => "Attribute"
    case BinOp(_, _) => "BinOp"
    case BoolOp(_) => "BoolOp"
    case Tuple(_, _) => "Tuple"
    case Constant(_) => "Constant"
    case OtherExpr(kind, _) => kind
  }

  predicate IsBinOp(n: Node) {
    n.ExprNode? && n.expr.BinOp?
  }

  function BinOpOperands(n: Node): seq<string> {
    if IsBinOp(n) then [OperandName(n.expr.left), OperandName(n.expr.right)] else []
  }

  /** Number of binary-operation nodes in the tree (`total_tokens`). */
  function Tokens(tree: Module): nat {
    Count(Walk(ModuleNode(tree)), IsBinOp)
  }

  /** The operand vocabulary collected from both sides of every binary operation. */
  function Operands(tree: Module): set<string> {
    set x | x in FlatMap(Walk(ModuleNode(tree)), BinOpOperands)
  }

  /** The argument of `log2`, including the source's floor of 2. */
  function LogArg(tree: Module): int {
    var arg := |Operators| + |Operands(tree)| + 1;
    if arg <= 1 then 2 else arg
  }

  /** `halstead_volume`. */
  function HalsteadVolume(log2: real -> real, tree: Module): real {
    Tokens(tree) as real * log2(LogArg(tree) as real)
  }

  /** The operator vocabulary has eight distinct entries. */
  lemma OperatorCount()
    ensures |Operators| == 8
  {
    var arith: set<string> := {"+", "-", "*", "/"};
    var logic: set<string> := {"==", "!=", "and", "or"};
    FourDistinct("+", "-", "*", "/");
    FourDistinct("==", "!=", "and", "or");
    assert arith * logic == {} by {
      forall x | x in arith
        ensures x !in logic
      {
        assert |x| == 1 && x[0] in "+-*/";
      }
    }
    assert Operators == arith + logic;
  }

  lemma FourDistinct(a: string, b: string, c: string, d: string)
    requires a != b && a != c && a != d && b != c && b != d && c != d
    ensures |{a, b, c, d}| == 4
  {
    assert {a, b, c, d} == {a} + {b} + {c} + {d};
    assert |{a} + {b}| == 2;
    assert |{a} + {b} + {c}| == 3;
  }

  /** The operator set always has eight members, so the `log2` argument is at
      least nine and the floor of 2 in the source can never apply. */
  lemma LogFloorIsDead(tree: Module)
    ensures |Operators| + |Operands(tree)| + 1 >= 9
    ensures LogArg(tree) == |Operators| + |Operands(tree)| + 1
  {
    OperatorCount();
  }

  // ---------------------------------------------------------------------------
  // calculate_mi and the quality score
  // ---------------------------------------------------------------------------

  function Clamp(x: real, lo: real, hi: real): real
    requires lo <= hi
  {
    if x < lo then lo else if x > hi then hi else x
  }

  /** `calculate_mi`: 171 - 5.2 ln(HV) - 0.23 CC - 16.2 ln(LOC), with HV and LOC
      floored at 1 and the result clamped to [0, 100]. */
  function MaintainabilityIndex(ln: real -> real, hv: real, cc: int, loc: int): (mi: real)
    ensures 0.0 <= mi <= 100.0
  {
    var hv1 := if hv < 1.0 then 1.0 else hv;
    var loc1 := if loc < 1 then 1 else loc;
    Clamp(171.0 - 5.2 * ln(hv1) - 0.23 * (cc as real) - 16.2 * ln(loc1 as real), 0.0, 100.0)
  }

  /** More complexity never raises the index, whatever the logarithm. */
  lemma MiAntitoneInComplexity(ln: real -> real, hv: real, cc1: int, cc2: int, loc: int)
    requires cc1 <= cc2
    ensures MaintainabilityIndex(ln, hv, cc2, loc) <= MaintainabilityIndex(ln, hv, cc1, loc)
  {
  }

  /** The file quality score: `max(0, mi/20 - 0.5 * penalty)`. */
  function QualityScore(mi: real, smells: seq<Smell>): (q: real)
    ensures q >= 0.0
    ensures q <= mi / 20.0 || q == 0.0
    ensures 0.0 <= mi <= 100.0 ==> q <= 5.0
  {
    var raw := mi / 20.0 - (Penalty(smells) as real) * 0.5;
    if raw < 0.0 then 0.0 else raw
  }

  /** More smells never raise a file's score, and a smell-free file scores
      exactly `mi / 20`, which is at most 5: the scale tops out at 5, not 10. */
  lemma QualityScoreAntitone(mi: real, a: seq<Smell>, b: seq<Smell>)
    requires mi >= 0.0
    ensures QualityScore(mi, a + b) <= QualityScore(mi, a)
    ensures QualityScore(mi, []) == mi / 20.0
  {
    PenaltyAppend(a, b);
  }
}
