/**
  The subset of Python's `ast` module that the analyzer, the auto-fixer and the
  docstring counter inspect, as closed datatypes.

  Every statement carries its `lineno`; function and class definitions also carry
  `end_lineno`, which the auto-fixer uses to splice source lines. `Node` lets one
  walker visit statements, expressions, exception handlers, `match` cases,
  parameter lists and single parameters alike, and `Children` lists a node's
  direct sub-nodes in the order of the node's `_fields`, as
  `ast.iter_child_nodes` does. Only the fields that hold nodes are kept, and a
  node kind no rule inspects is folded into `OtherExpr` or `OtherStmt`, which
  keeps its sub-nodes in order and at their depth.
 */
module Syntax {
  import opened Wrappers

  /** Context of a `Name`, `Attribute` or `Tuple`: read, write or delete. */
  datatype Ctx = Load | Store | Del

  datatype Expr =
    | Name(id: string, ctx: Ctx)
    | Attribute(value: Expr, attr: string, ctx: Ctx)
    | BinOp(left: Expr, right: Expr)
    | BoolOp(values: seq<Expr>)
    | Tuple(elts: seq<Expr>, ctx: Ctx)
      /** A literal; `text` is `Some` exactly for string literals. */
    | Constant(text: Option<string>)
      /** Any other expression (call, subscript, comparison, ...), named by its
          node class and holding its sub-expressions. */
    | OtherExpr(kind: string, parts: seq<Expr>)

  /** One entry of an `import` statement: `name` as written, `asname` for `as x`. */
  datatype Alias = Alias(name: string, asname: Option<string>)

  /** A parameter with its optional annotation. */
  datatype Arg = Arg(name: string, annotation: Option<Expr>)

  /** A function's parameter list, Python's `ast.arguments` node: `args` are the
      plain positional parameters (`node.args.args`, `self` included);
      `kwDefaults` holds the defaults that keyword-only parameters have (the
      absent ones are no nodes), `defaults` those of the positional ones. */
  datatype Params = Params(posonly: seq<Arg>, args: seq<Arg>, vararg: Option<Arg>, kwonly: seq<Arg>,
                           kwDefaults: seq<Expr>, kwarg: Option<Arg>, defaults: seq<Expr>)

  datatype Stmt =
      /** `def` (`isAsync` false) or `async def` (`isAsync` true). */
    | FunctionDef(isAsync: bool, name: string, line: int, endLine: int, params: Params,
                  body: seq<Stmt>, decorators: seq<Expr>, returnHint: Option<Expr>)
      /** `class`; `bases` holds the `bases` and then the `keywords` fields, each
          keyword (`metaclass=M`) folded as `OtherExpr("keyword", [value])`, so
          its value sits one level below the class, as in `ast.walk`. */
    | ClassDef(name: string, line: int, endLine: int, bases: seq<Expr>, body: seq<Stmt>,
               decorators: seq<Expr>)
    | If(line: int, test: Expr, body: seq<Stmt>, orelse: seq<Stmt>)
      /** `for` or `async for`. */
    | For(isAsync: bool, line: int, target: Expr, iter: Expr, body: seq<Stmt>, orelse: seq<Stmt>)
    | While(line: int, test: Expr, body: seq<Stmt>, orelse: seq<Stmt>)
      /** `with` or `async with`; each `withitem` of `items` is folded as
          `OtherExpr("withitem", [context])`, or `OtherExpr("withitem",
          [context, target])` when it has an `as` target. */
    | With(isAsync: bool, line: int, items: seq<Expr>, body: seq<Stmt>)
    | Try(line: int, body: seq<Stmt>, handlers: seq<Handler>, orelse: seq<Stmt>, finalbody: seq<Stmt>)
      /** `try ... except* ...`: a statement kind of its own, distinct from `Try`. */
    | TryStar(line: int, body: seq<Stmt>, handlers: seq<Handler>, orelse: seq<Stmt>, finalbody: seq<Stmt>)
    | Match(line: int, subject: Expr, cases: seq<MatchCase>)
    | Return(line: int, returned: Option<Expr>)
    | Raise(line: int, exc: Option<Expr>, cause: Option<Expr>)
    | Break(line: int)
    | Continue(line: int)
    | Pass(line: int)
    | Assign(line: int, targets: seq<Expr>, value: Expr)
    | AnnAssign(line: int, target: Expr, annotation: Expr, rhs: Option<Expr>)
    | AugAssign(line: int, target: Expr, value: Expr)
    | Assert(line: int, test: Expr, msg: Option<Expr>)
    | Import(line: int, names: seq<Alias>)
    | ImportFrom(line: int, fromModule: Option<string>, names: seq<Alias>)
      /** An expression statement (Python's `ast.Expr`). */
    | ExprStmt(line: int, value: Expr)
      /** Any other statement (`del`, `global`, `type`, ...): none of them holds
          a statement. */
    | OtherStmt(line: int, kind: string, parts: seq<Expr>)

  /** An `except` clause: `exnType` is absent for a bare `except:`. */
  datatype Handler = Handler(line: int, exnType: Option<Expr>, name: Option<string>, body: seq<Stmt>)

  /** One `case` of a `match`. No rule inspects patterns, so the pattern is kept
      as the expression node that holds its sub-expressions. */
  datatype MatchCase = MatchCase(pattern: Expr, guard: Option<Expr>, body: seq<Stmt>)

  /** A parsed module: the root of every analysed tree. */
  datatype Module = Module(body: seq<Stmt>)

  /** Any node an `ast.walk` can yield. */
  datatype Node =
    | ModuleNode(mod: Module)
    | StmtNode(stmt: Stmt)
    | ExprNode(expr: Expr)
    | HandlerNode(handler: Handler)
    | CaseNode(matchCase: MatchCase)
    | ParamsNode(params: Params)
    | ArgNode(arg: Arg)

  /** A node below which no statement can occur. */
  predicate IsExprLevel(n: Node) {
    n.ExprNode? || n.ParamsNode? || n.ArgNode?
  }

  // ---------------------------------------------------------------------------
  // Direct children, in `_fields` order
  // ---------------------------------------------------------------------------

  function Es(es: seq<Expr>): seq<Node> {
    seq(|es|, i requires 0 <= i < |es| => ExprNode(es[i]))
  }

  function Ss(ss: seq<Stmt>): seq<Node> {
    seq(|ss|, i requires 0 <= i < |ss| => StmtNode(ss[i]))
  }

  function Hs(hs: seq<Handler>): seq<Node> {
    seq(|hs|, i requires 0 <= i < |hs| => HandlerNode(hs[i]))
  }

  function As(args: seq<Arg>): seq<Node> {
    seq(|args|, i requires 0 <= i < |args| => ArgNode(args[i]))
  }

  function Cs(cs: seq<MatchCase>): seq<Node> {
    seq(|cs|, i requires 0 <= i < |cs| => CaseNode(cs[i]))
  }

  /** An optional field: present fields are children, absent ones are skipped. */
  function Opt(o: Option<Expr>): seq<Node> {
    match o
    case Some(e) => [ExprNode(e)]
    case None => []
  }

  function OptArg(o: Option<Arg>): seq<Node> {
    match o
    case Some(a) => [ArgNode(a)]
    case None => []
  }

  function ParamsChildren(p: Params): seq<Node> {
    As(p.posonly) + As(p.args) + OptArg(p.vararg) + As(p.kwonly) + Es(p.kwDefaults) + OptArg(p.kwarg) + Es(p.defaults)
  }

  function StmtChildren(s: Stmt): seq<Node> {
    match s
    case FunctionDef(_, _, _, _, p, body, decos, returnHint) =>
      [ParamsNode(p)] + Ss(body) + Es(decos) + Opt(returnHint)
    case ClassDef(_, _, _, bases, body, decos) => Es(bases) + Ss(body) + Es(decos)
    case If(_, test, body, orelse) => [ExprNode(test)] + Ss(body) + Ss(orelse)
    case For(_, _, target, iter, body, orelse) =>
      [ExprNode(target), ExprNode(iter)] + Ss(body) + Ss(orelse)
    case While(_, test, body, orelse) => [ExprNode(test)] + Ss(body) + Ss(orelse)
    case With(_, _, items, body) => Es(items) + Ss(body)
    case Try(_, body, handlers, orelse, finalbody) => Ss(body) + Hs(handlers) + Ss(orelse) + Ss(finalbody)
    case TryStar(_, body, handlers, orelse, finalbody) => Ss(body) + Hs(handlers) + Ss(orelse) + Ss(finalbody)
    case Match(_, subject, cases) => [ExprNode(subject)] + Cs(cases)
    case Return(_, value) => Opt(value)
    case Raise(_, exc, cause) => Opt(exc) + Opt(cause)
    case Break(_) => []
    case Continue(_) => []
    case Pass(_) => []
    case Assign(_, targets, value) => Es(targets) + [ExprNode(value)]
    case AnnAssign(_, target, ann, value) => [ExprNode(target), ExprNode(ann)] + Opt(value)
    case AugAssign(_, target, value) => [ExprNode(target), ExprNode(value)]
    case Assert(_, test, msg) => [ExprNode(test)] + Opt(msg)
    case Import(_, _) => []
    case ImportFrom(_, _, _) => []
    case ExprStmt(_, value) => [ExprNode(value)]
    case OtherStmt(_, _, parts) => Es(parts)
  }

  function ExprChildren(e: Expr): seq<Node> {
    match e
    case Name(_, _) => []
    case Attribute(value, _, _) => [ExprNode(value)]
    case BinOp(left, right) => [ExprNode(left), ExprNode(right)]
    case BoolOp(values) => Es(values)
    case Tuple(elts, _) => Es(elts)
    case Constant(_) => []
    case OtherExpr(_, parts) => Es(parts)
  }

  /** The direct sub-nodes of `n`, as `ast.iter_child_nodes` yields them. */
  function Children(n: Node): seq<Node> {
    match n
    case ModuleNode(m) => Ss(m.body)
    case StmtNode(s) => StmtChildren(s)
    case ExprNode(e) => ExprChildren(e)
    case HandlerNode(h) => Opt(h.exnType) + Ss(h.body)
    case CaseNode(c) => [ExprNode(c.pattern)] + Opt(c.guard) + Ss(c.body)
    case ParamsNode(p) => ParamsChildren(p)
    case ArgNode(a) => Opt(a.annotation)
  }

  /** Below an expression, a parameter list or a parameter there are only
      expressions, parameters and parameter lists. */
  lemma ExprLevelChildren(n: Node)
    requires IsExprLevel(n)
    ensures forall i :: 0 <= i < |Children(n)| ==> IsExprLevel(Children(n)[i])
  {
    match n
    case ExprNode(e) =>
    case ArgNode(a) =>
    case ParamsNode(p) =>
      var cs := ParamsChildren(p);
      forall i | 0 <= i < |cs|
        ensures IsExprLevel(cs[i])
      {
        var a := As(p.posonly) + As(p.args) + OptArg(p.vararg);
        var b := As(p.kwonly) + Es(p.kwDefaults) + OptArg(p.kwarg);
        assert cs == a + b + Es(p.defaults);
      }
  }

  // ---------------------------------------------------------------------------
  // Sizes: the termination measure of every walker
  // ---------------------------------------------------------------------------

  function Sum(xs: seq<nat>): nat {
    if xs == [] then 0 else xs[0] + Sum(xs[1..])
  }

  lemma {:induction false} SumAppend(a: seq<nat>, b: seq<nat>)
    ensures Sum(a + b) == Sum(a) + Sum(b)
  {
    if a == [] {
      assert a + b == b;
    } else {
      assert (a + b)[1..] == a[1..] + b;
      SumAppend(a[1..], b);
    }
  }

  function ExprSize(e: Expr): nat {
    match e
    case Name(_, _) => 1
    case Attribute(value, _, _) => 1 + ExprSize(value)
    case BinOp(left, right) => 1 + ExprSize(left) + ExprSize(right)
    case BoolOp(values) => 1 + Sum(ExprSizes(values))
    case Tuple(elts, _) => 1 + Sum(ExprSizes(elts))
    case Constant(_) => 1
    case OtherExpr(_, parts) => 1 + Sum(ExprSizes(parts))
  }

  function ExprSizes(es: seq<Expr>): seq<nat> {
    seq(|es|, i requires 0 <= i < |es| => ExprSize(es[i]))
  }

  function OptSize(o: Option<Expr>): nat {
    match o
    case Some(e) => ExprSize(e)
    case None => 0
  }

  function ArgSize(a: Arg): nat {
    1 + OptSize(a.annotation)
  }

  function ArgSizes(args: seq<Arg>): seq<nat> {
    seq(|args|, i requires 0 <= i < |args| => ArgSize(args[i]))
  }

  function OptArgSize(o: Option<Arg>): nat {
    match o
    case Some(a) => ArgSize(a)
    case None => 0
  }

  function ParamsSize(p: Params): nat {
    1 + Sum(ArgSizes(p.posonly)) + Sum(ArgSizes(p.args)) + OptArgSize(p.vararg) + Sum(ArgSizes(p.kwonly))
    + Sum(ExprSizes(p.kwDefaults)) + OptArgSize(p.kwarg) + Sum(ExprSizes(p.defaults))
  }

  function StmtSize(s: Stmt): nat {
    1 + match s
        case FunctionDef(_, _, _, _, p, body, decos, returnHint) =>
          ParamsSize(p) + Sum(StmtSizes(body)) + Sum(ExprSizes(decos)) + OptSize(returnHint)
        case ClassDef(_, _, _, bases, body, decos) =>
          Sum(ExprSizes(bases)) + Sum(StmtSizes(body)) + Sum(ExprSizes(decos))
        case If(_, test, body, orelse) => ExprSize(test) + Sum(StmtSizes(body)) + Sum(StmtSizes(orelse))
        case For(_, _, target, iter, body, orelse) =>
          ExprSize(target) + ExprSize(iter) + Sum(StmtSizes(body)) + Sum(StmtSizes(orelse))
        case While(_, test, body, orelse) => ExprSize(test) + Sum(StmtSizes(body)) + Sum(StmtSizes(orelse))
        case With(_, _, items, body) => Sum(ExprSizes(items)) + Sum(StmtSizes(body))
        case Try(_, body, handlers, orelse, finalbody) =>
          Sum(StmtSizes(body)) + Sum(HandlerSizes(handlers)) + Sum(StmtSizes(orelse)) + Sum(StmtSizes(finalbody))
        case TryStar(_, body, handlers, orelse, finalbody) =>
          Sum(StmtSizes(body)) + Sum(HandlerSizes(handlers)) + Sum(StmtSizes(orelse)) + Sum(StmtSizes(finalbody))
        case Match(_, subject, cases) => ExprSize(subject) + Sum(CaseSizes(cases))
        case Return(_, value) => OptSize(value)
        case Raise(_, exc, cause) => OptSize(exc) + OptSize(cause)
        case Break(_) => 0
        case Continue(_) => 0
        case Pass(_) => 0
        case Assign(_, targets, value) => Sum(ExprSizes(targets)) + ExprSize(value)
        case AnnAssign(_, target, ann, value) => ExprSize(target) + ExprSize(ann) + OptSize(value)
        case AugAssign(_, target, value) => ExprSize(target) + ExprSize(value)
        case Assert(_, test, msg) => ExprSize(test) + OptSize(msg)
        case Import(_, _) => 0
        case ImportFrom(_, _, _) => 0
        case ExprStmt(_, value) => ExprSize(value)
        case OtherStmt(_, _, parts) => Sum(ExprSizes(parts))
  }

  function StmtSizes(ss: seq<Stmt>): seq<nat> {
    seq(|ss|, i requires 0 <= i < |ss| => StmtSize(ss[i]))
  }

  function HandlerSize(h: Handler): nat {
    1 + OptSize(h.exnType) + Sum(StmtSizes(h.body))
  }

  function HandlerSizes(hs: seq<Handler>): seq<nat> {
    seq(|hs|, i requires 0 <= i < |hs| => HandlerSize(hs[i]))
  }

  function CaseSize(c: MatchCase): nat {
    1 + ExprSize(c.pattern) + OptSize(c.guard) + Sum(StmtSizes(c.body))
  }

  function CaseSizes(cs: seq<MatchCase>): seq<nat> {
    seq(|cs|, i requires 0 <= i < |cs| => CaseSize(cs[i]))
  }

  /** Number of nodes in the subtree rooted at `n`. */
  function NodeSize(n: Node): nat {
    match n
    case ModuleNode(m) => 1 + Sum(StmtSizes(m.body))
    case StmtNode(s) => StmtSize(s)
    case ExprNode(e) => ExprSize(e)
    case HandlerNode(h) => HandlerSize(h)
    case CaseNode(c) => CaseSize(c)
    case ParamsNode(p) => ParamsSize(p)
    case ArgNode(a) => ArgSize(a)
  }

  function NodeSizes(ns: seq<Node>): seq<nat> {
    seq(|ns|, i requires 0 <= i < |ns| => NodeSize(ns[i]))
  }

  /** Total number of nodes in the forest `ns`. */
  function SumSize(ns: seq<Node>): nat {
    Sum(NodeSizes(ns))
  }

  lemma SumSizeAppend(a: seq<Node>, b: seq<Node>)
    ensures SumSize(a + b) == SumSize(a) + SumSize(b)
  {
    assert NodeSizes(a + b) == NodeSizes(a) + NodeSizes(b);
    SumAppend(NodeSizes(a), NodeSizes(b));
  }

  lemma SumSizeCons(ns: seq<Node>)
    requires ns != []
    ensures SumSize(ns) == NodeSize(ns[0]) + SumSize(ns[1..])
  {
    assert NodeSizes(ns)[1..] == NodeSizes(ns[1..]);
  }

  lemma SumSizeViews(es: seq<Expr>, ss: seq<Stmt>, hs: seq<Handler>, args: seq<Arg>, o: Option<Expr>)
    ensures SumSize(Es(es)) == Sum(ExprSizes(es))
    ensures SumSize(Ss(ss)) == Sum(StmtSizes(ss))
    ensures SumSize(Hs(hs)) == Sum(HandlerSizes(hs))
    ensures SumSize(As(args)) == Sum(ArgSizes(args))
    ensures SumSize(Opt(o)) == OptSize(o)
  {
    assert NodeSizes(Es(es)) == ExprSizes(es);
    assert NodeSizes(Ss(ss)) == StmtSizes(ss);
    assert NodeSizes(Hs(hs)) == HandlerSizes(hs);
    assert NodeSizes(As(args)) == ArgSizes(args);
    match o
    case Some(e) =>
      assert NodeSizes(Opt(o)) == [ExprSize(e)];
      assert Sum([ExprSize(e)]) == ExprSize(e) + Sum([]);
    case None =>
  }

  lemma SumSizeCaseViews(cs: seq<MatchCase>, o: Option<Arg>)
    ensures SumSize(Cs(cs)) == Sum(CaseSizes(cs))
    ensures SumSize(OptArg(o)) == OptArgSize(o)
  {
    assert NodeSizes(Cs(cs)) == CaseSizes(cs);
    match o
    case Some(a) =>
      assert NodeSizes(OptArg(o)) == [ArgSize(a)];
      assert Sum([ArgSize(a)]) == ArgSize(a) + Sum([]);
    case None =>
  }

  lemma SumSizeSingle(n: Node)
    ensures SumSize([n]) == NodeSize(n)
  {
    SumSizeCons([n]);
  }

  /** A node's children, together, are strictly smaller than the node: every
      recursive walk over `Children` terminates. */
  lemma ChildrenSmaller(n: Node)
    ensures SumSize(Children(n)) == NodeSize(n) - 1
  {
    match n
    case ModuleNode(m) =>
      SumSizeViews([], m.body, [], [], None);
    case ExprNode(e) =>
      ExprChildrenSmaller(e);
    case HandlerNode(h) =>
      SumSizeAppend(Opt(h.exnType), Ss(h.body));
      SumSizeViews([], h.body, [], [], h.exnType);
    case CaseNode(c) =>
      Sum3([ExprNode(c.pattern)], Opt(c.guard), Ss(c.body));
      SumSizeSingle(ExprNode(c.pattern));
      SumSizeViews([], c.body, [], [], c.guard);
    case ParamsNode(p) =>
      ParamsChildrenSmaller(p);
    case ArgNode(a) =>
      SumSizeViews([], [], [], [], a.annotation);
    case StmtNode(s) =>
      StmtChildrenSmaller(s);
  }

  lemma ExprChildrenSmaller(e: Expr)
    ensures SumSize(ExprChildren(e)) == ExprSize(e) - 1
  {
    match e
    case Name(_, _) =>
    case Attribute(value, _, _) =>
      SumSizeSingle(ExprNode(value));
    case BinOp(left, right) =>
      SumSizeAppend([ExprNode(left)], [ExprNode(right)]);
      assert [ExprNode(left)] + [ExprNode(right)] == [ExprNode(left), ExprNode(right)];
      SumSizeSingle(ExprNode(left));
      SumSizeSingle(ExprNode(right));
    case BoolOp(values) =>
      SumSizeViews(values, [], [], [], None);
    case Tuple(elts, _) =>
      SumSizeViews(elts, [], [], [], None);
    case Constant(_) =>
    case OtherExpr(_, parts) =>
      SumSizeViews(parts, [], [], [], None);
  }

  lemma Sum3(a: seq<Node>, b: seq<Node>, c: seq<Node>)
    ensures SumSize(a + b + c) == SumSize(a) + SumSize(b) + SumSize(c)
  {
    SumSizeAppend(a + b, c);
    SumSizeAppend(a, b);
  }

  lemma Sum4(a: seq<Node>, b: seq<Node>, c: seq<Node>, d: seq<Node>)
    ensures SumSize(a + b + c + d) == SumSize(a) + SumSize(b) + SumSize(c) + SumSize(d)
  {
    SumSizeAppend(a + b + c, d);
    Sum3(a, b, c);
  }

  lemma ParamsChildrenSmaller(p: Params)
    ensures SumSize(ParamsChildren(p)) == ParamsSize(p) - 1
  {
    var a := As(p.posonly) + As(p.args) + OptArg(p.vararg);
    var b := As(p.kwonly) + Es(p.kwDefaults) + OptArg(p.kwarg);
    assert ParamsChildren(p) == a + b + Es(p.defaults);
    Sum3(a, b, Es(p.defaults));
    Sum3(As(p.posonly), As(p.args), OptArg(p.vararg));
    Sum3(As(p.kwonly), Es(p.kwDefaults), OptArg(p.kwarg));
    SumSizeViews(p.kwDefaults, [], [], p.posonly, None);
    SumSizeViews(p.defaults, [], [], p.args, None);
    SumSizeViews([], [], [], p.kwonly, None);
    SumSizeCaseViews([], p.vararg);
    SumSizeCaseViews([], p.kwarg);
  }

  lemma StmtChildrenSmaller(s: Stmt)
    ensures SumSize(StmtChildren(s)) == StmtSize(s) - 1
  {
    if s.FunctionDef? {
      FunctionDefChildrenSmaller(s);
    } else if s.ClassDef? {
      ClassDefChildrenSmaller(s);
    } else if s.If? {
      IfChildrenSmaller(s);
    } else if s.For? {
      ForChildrenSmaller(s);
    } else if s.While? {
      WhileChildrenSmaller(s);
    } else if s.With? {
      WithChildrenSmaller(s);
    } else if s.Try? {
      TryChildrenSmaller(s);
    } else if s.TryStar? {
      TryStarChildrenSmaller(s);
    } else if s.Match? {
      MatchChildrenSmaller(s);
    } else if s.Return? {
      ReturnChildrenSmaller(s);
    } else if s.Raise? {
      RaiseChildrenSmaller(s);
    } else if s.Assign? {
      AssignChildrenSmaller(s);
    } else if s.AnnAssign? {
      AnnAssignChildrenSmaller(s);
    } else if s.AugAssign? {
      AugAssignChildrenSmaller(s);
    } else if s.Assert? {
      AssertChildrenSmaller(s);
    } else if s.ExprStmt? {
      ExprStmtChildrenSmaller(s);
    } else if s.OtherStmt? {
      OtherStmtChildrenSmaller(s);
    }
  }

  lemma FunctionDefChildrenSmaller(s: Stmt)
    requires s.FunctionDef?
    ensures SumSize(StmtChildren(s)) == StmtSize(s) - 1
  {
    var FunctionDef(_, _, _, _, p, body, decos, returnHint) := s;
    Sum4([ParamsNode(p)], Ss(body), Es(decos), Opt(returnHint));
    SumSizeSingle(ParamsNode(p));
    SumSizeViews(decos, body, [], [], returnHint);
  }

  lemma ClassDefChildrenSmaller(s: Stmt)
    requires s.ClassDef?
    ensures SumSize(StmtChildren(s)) == StmtSize(s) - 1
  {
    var ClassDef(_, _, _, bases, body, decos) := s;
    Sum3(Es(bases), Ss(body), Es(decos));
    SumSizeViews(bases, body, [], [], None);
    SumSizeViews(decos, [], [], [], None);
  }

  lemma IfChildrenSmaller(s: Stmt)
    requires s.If?
    ensures SumSize(StmtChildren(s)) == StmtSize(s) - 1
  {
    var If(_, test, body, orelse) := s;
    Sum3([ExprNode(test)], Ss(body), Ss(orelse));
    SumSizeSingle(ExprNode(test));
    SumSizeViews([], body, [], [], None);
    SumSizeViews([], orelse, [], [], None);
  }

  lemma ForChildrenSmaller(s: Stmt)
    requires s.For?
    ensures SumSize(StmtChildren(s)) == StmtSize(s) - 1
  {
    var For(_, _, target, iter, body, orelse) := s;
    Sum4([ExprNode(target)], [ExprNode(iter)], Ss(body), Ss(orelse));
    assert [ExprNode(target)] + [ExprNode(iter)] == [ExprNode(target), ExprNode(iter)];
    SumSizeSingle(ExprNode(target));
    SumSizeSingle(ExprNode(iter));
    SumSizeViews([], body, [], [], None);
    SumSizeViews([], orelse, [], [], None);
  }

  lemma WhileChildrenSmaller(s: Stmt)
    requires s.While?
    ensures SumSize(StmtChildren(s)) == StmtSize(s) - 1
  {
    var While(_, test, body, orelse) := s;
    Sum3([ExprNode(test)], Ss(body), Ss(orelse));
    SumSizeSingle(ExprNode(test));
    SumSizeViews([], body, [], [], None);
    SumSizeViews([], orelse, [], [], None);
  }

  lemma WithChildrenSmaller(s: Stmt)
    requires s.With?
    ensures SumSize(StmtChildren(s)) == StmtSize(s) - 1
  {
    var With(_, _, items, body) := s;
    SumSizeAppend(Es(items), Ss(body));
    SumSizeViews(items, body, [], [], None);
  }

  lemma TryChildrenSmaller(s: Stmt)
    requires s.Try?
    ensures SumSize(StmtChildren(s)) == StmtSize(s) - 1
  {
    var Try(_, body, handlers, orelse, finalbody) := s;
    Sum4(Ss(body), Hs(handlers), Ss(orelse), Ss(finalbody));
    SumSizeViews([], body, handlers, [], None);
    SumSizeViews([], orelse, [], [], None);
    SumSizeViews([], finalbody, [], [], None);
  }

  lemma TryStarChildrenSmaller(s: Stmt)
    requires s.TryStar?
    ensures SumSize(StmtChildren(s)) == StmtSize(s) - 1
  {
    var TryStar(_, body, handlers, orelse, finalbody) := s;
    Sum4(Ss(body), Hs(handlers), Ss(orelse), Ss(finalbody));
    SumSizeViews([], body, handlers, [], None);
    SumSizeViews([], orelse, [], [], None);
    SumSizeViews([], finalbody, [], [], None);
  }

  lemma MatchChildrenSmaller(s: Stmt)
    requires s.Match?
    ensures SumSize(StmtChildren(s)) == StmtSize(s) - 1
  {
    var Match(_, subject, cases) := s;
    SumSizeAppend([ExprNode(subject)], Cs(cases));
    SumSizeSingle(ExprNode(subject));
    SumSizeCaseViews(cases, None);
  }

  lemma ReturnChildrenSmaller(s: Stmt)
    requires s.Return?
    ensures SumSize(StmtChildren(s)) == StmtSize(s) - 1
  {
    var Return(_, value) := s;
    SumSizeViews([], [], [], [], value);
  }

  lemma RaiseChildrenSmaller(s: Stmt)
    requires s.Raise?
    ensures SumSize(StmtChildren(s)) == StmtSize(s) - 1
  {
    var Raise(_, exc, cause) := s;
    SumSizeAppend(Opt(exc), Opt(cause));
    SumSizeViews([], [], [], [], exc);
    SumSizeViews([], [], [], [], cause);
  }

  lemma AssignChildrenSmaller(s: Stmt)
    requires s.Assign?
    ensures SumSize(StmtChildren(s)) == StmtSize(s) - 1
  {
    var Assign(_, targets, value) := s;
    SumSizeAppend(Es(targets), [ExprNode(value)]);
    SumSizeViews(targets, [], [], [], None);
    SumSizeSingle(ExprNode(value));
  }

  lemma AnnAssignChildrenSmaller(s: Stmt)
    requires s.AnnAssign?
    ensures SumSize(StmtChildren(s)) == StmtSize(s) - 1
  {
    var AnnAssign(_, target, ann, value) := s;
    Sum3([ExprNode(target)], [ExprNode(ann)], Opt(value));
    assert [ExprNode(target)] + [ExprNode(ann)] == [ExprNode(target), ExprNode(ann)];
    SumSizeSingle(ExprNode(target));
    SumSizeSingle(ExprNode(ann));
    SumSizeViews([], [], [], [], value);
  }

  lemma AugAssignChildrenSmaller(s: Stmt)
    requires s.AugAssign?
    ensures SumSize(StmtChildren(s)) == StmtSize(s) - 1
  {
    var AugAssign(_, target, value) := s;
    SumSizeAppend([ExprNode(target)], [ExprNode(value)]);
    assert [ExprNode(target)] + [ExprNode(value)] == [ExprNode(target), ExprNode(value)];
    SumSizeSingle(ExprNode(target));
    SumSizeSingle(ExprNode(value));
  }

  lemma AssertChildrenSmaller(s: Stmt)
    requires s.Assert?
    ensures SumSize(StmtChildren(s)) == StmtSize(s) - 1
  {
    var Assert(_, test, msg) := s;
    SumSizeAppend([ExprNode(test)], Opt(msg));
    SumSizeSingle(ExprNode(test));
    SumSizeViews([], [], [], [], msg);
  }

  lemma ExprStmtChildrenSmaller(s: Stmt)
    requires s.ExprStmt?
    ensures SumSize(StmtChildren(s)) == StmtSize(s) - 1
  {
    var ExprStmt(_, value) := s;
    SumSizeSingle(ExprNode(value));
  }

  lemma OtherStmtChildrenSmaller(s: Stmt)
    requires s.OtherStmt?
    ensures SumSize(StmtChildren(s)) == StmtSize(s) - 1
  {
    var OtherStmt(_, _, parts) := s;
    SumSizeViews(parts, [], [], [], None);
  }
}
