/**
  The tenth detector: statements that follow a `return`, `raise`, `break` or
  `continue` in the same statement list of a plain `def`.

  `_mark_unreachable_in_block` scans one block with a `dead` flag that is set
  by a terminating statement and never cleared, and recurses with a fresh flag
  into the `body`, `orelse`, `finalbody` and handler bodies of every `if`,
  `for`, `while`, `with` and `try`. A terminator inside a nested block never
  makes the statements after that block dead.
 */
module Unreachable {
  import opened Syntax
  import opened Traversal
  import opened Smells
  import opened Detectors
  import Metrics

  predicate IsTerminator(s: Stmt) {
    s.Return? || s.Raise? || s.Break? || s.Continue?
  }

  function UnreachableSmell(file: string, func: string, s: Stmt): Smell {
    Smell(UnreachableCode, file, func, s.line, Medium, AfterTerminator)
  }

  /** `_mark_unreachable_in_block(file, func, block)` with the flag already
      set to `dead`. */
  function MarkBlock(file: string, func: string, block: seq<Stmt>, dead: bool): seq<Smell>
    decreases block, 1
  {
    if block == [] then []
    else
      var s := block[0];
      (if dead then [UnreachableSmell(file, func, s)] else [])
      + MarkNested(file, func, s)
      + MarkBlock(file, func, block[1..], dead || IsTerminator(s))
  }

  /** The recursion into the statement lists of a compound statement, in the
      order body, orelse, finalbody, handlers. */
  function MarkNested(file: string, func: string, s: Stmt): seq<Smell>
    decreases s, 0
  {
    match s
    case If(_, _, body, orelse) => MarkBlock(file, func, body, false) + MarkBlock(file, func, orelse, false)
    case For(_, _, _, _, body, orelse) => MarkBlock(file, func, body, false) + MarkBlock(file, func, orelse, false)
    case While(_, _, body, orelse) => MarkBlock(file, func, body, false) + MarkBlock(file, func, orelse, false)
    case With(_, _, _, body) => MarkBlock(file, func, body, false)
    case Try(_, body, handlers, orelse, finalbody) =>
      MarkBlock(file, func, body, false) + MarkBlock(file, func, orelse, false)
      + MarkBlock(file, func, finalbody, false) + MarkHandlers(file, func, handlers)
    case _ => []
  }

  function MarkHandlers(file: string, func: string, hs: seq<Handler>): seq<Smell>
    decreases hs
  {
    if hs == [] then []
    else MarkBlock(file, func, hs[0].body, false) + MarkHandlers(file, func, hs[1..])
  }

  // ---------------------------------------------------------------------------
  // Reference definition: a statement is dead when some earlier statement of
  // the same block terminates
  // ---------------------------------------------------------------------------

  predicate DeadAt(block: seq<Stmt>, i: int)
    requires 0 <= i <= |block|
  {
    exists j :: 0 <= j < i && IsTerminator(block[j])
  }

  /** What the scan reports for position `i` of `block`: the statement itself
      when it is dead, then whatever its nested blocks report. */
  function Piece(file: string, func: string, block: seq<Stmt>, i: int): seq<Smell>
    requires 0 <= i < |block|
  {
    (if DeadAt(block, i) then [UnreachableSmell(file, func, block[i])] else [])
    + MarkNested(file, func, block[i])
  }

  /** The pieces of positions `k ..` of `block`, in order. */
  function Pieces(file: string, func: string, block: seq<Stmt>, k: int): seq<Smell>
    requires 0 <= k <= |block|
    decreases |block| - k
  {
    if k == |block| then [] else Piece(file, func, block, k) + Pieces(file, func, block, k + 1)
  }

  lemma {:induction false} MarkBlockFrom(file: string, func: string, block: seq<Stmt>, k: int)
    requires 0 <= k <= |block|
    ensures MarkBlock(file, func, block[k..], DeadAt(block, k)) == Pieces(file, func, block, k)
    decreases |block| - k
  {
    if k < |block| {
      MarkBlockFrom(file, func, block, k + 1);
      assert block[k..][1..] == block[k + 1..];
      assert block[k..][0] == block[k];
      assert DeadAt(block, k + 1) == (DeadAt(block, k) || IsTerminator(block[k])) by {
        if IsTerminator(block[k]) {
          assert DeadAt(block, k + 1);
        }
        if DeadAt(block, k + 1) && !IsTerminator(block[k]) {
          var j :| 0 <= j < k + 1 && IsTerminator(block[j]);
          assert j < k;
        }
      }
    }
  }

  /** The flag-passing scan reports exactly the pieces of the reference
      definition: every statement with a terminator before it in its own block,
      plus what each nested block reports on its own. */
  lemma MarkBlockIsPieces(file: string, func: string, block: seq<Stmt>)
    ensures MarkBlock(file, func, block, false) == Pieces(file, func, block, 0)
  {
    MarkBlockFrom(file, func, block, 0);
    assert block[0..] == block;
    assert !DeadAt(block, 0);
  }

  /** In a block of simple statements whose first terminator is at position
      `t`, exactly the statements after `t` are reported, in order. */
  lemma {:induction false} FlatBlockAfterTerminator(file: string, func: string, block: seq<Stmt>, t: nat)
    requires forall i :: 0 <= i < |block| ==> Metrics.IsSimple(block[i])
    requires t < |block| && IsTerminator(block[t])
    requires forall j :: 0 <= j < t ==> !IsTerminator(block[j])
    ensures MarkBlock(file, func, block, false)
            == seq(|block| - t - 1, i requires 0 <= i < |block| - t - 1 => UnreachableSmell(file, func, block[t + 1 + i]))
  {
    MarkBlockIsPieces(file, func, block);
    FlatPieces(file, func, block, t, 0);
  }

  lemma {:induction false} FlatPieces(file: string, func: string, block: seq<Stmt>, t: nat, k: nat)
    requires forall i :: 0 <= i < |block| ==> Metrics.IsSimple(block[i])
    requires t < |block| && IsTerminator(block[t])
    requires forall j :: 0 <= j < t ==> !IsTerminator(block[j])
    requires k <= |block|
    ensures Pieces(file, func, block, k)
            == seq(|block| - Metrics.Max(k, t + 1), i requires 0 <= i < |block| - Metrics.Max(k, t + 1) => UnreachableSmell(file, func, block[Metrics.Max(k, t + 1) + i]))
    decreases |block| - k
  {
    if k < |block| {
      FlatPieces(file, func, block, t, k + 1);
      SimpleHasNoNested(file, func, block[k]);
      if k <= t {
        assert !DeadAt(block, k);
      } else {
        assert DeadAt(block, k) by {
          assert IsTerminator(block[t]);
        }
      }
    }
  }

  /** A `return` inside an `if` does not make the statements after the `if`
      dead, even when both branches return. */
  lemma ReturnInsideIfIsNotTerminal(file: string, func: string, line: int, test: Expr, r1: Stmt, r2: Stmt, after: seq<Stmt>)
    requires r1.Return? && r2.Return?
    requires forall i :: 0 <= i < |after| ==> Metrics.IsSimple(after[i]) && !IsTerminator(after[i])
    ensures MarkBlock(file, func, [If(line, test, [r1], [r2])] + after, false) == []
  {
    var block := [If(line, test, [r1], [r2])] + after;
    MarkBlockIsPieces(file, func, block);
    NoDeadPieces(file, func, block, 0);
  }

  /** A simple statement holds no block to recurse into. */
  lemma SimpleHasNoNested(file: string, func: string, s: Stmt)
    requires Metrics.IsSimple(s)
    ensures MarkNested(file, func, s) == []
  {
  }

  lemma ReturningIfReportsNothing(file: string, func: string, s: Stmt)
    requires s.If?
    requires |s.body| == 1 && s.body[0].Return?
    requires |s.orelse| == 1 && s.orelse[0].Return?
    ensures MarkNested(file, func, s) == []
  {
    assert MarkBlock(file, func, s.body, false) == [] by {
      assert s.body[1..] == [];
    }
    assert MarkBlock(file, func, s.orelse, false) == [] by {
      assert s.orelse[1..] == [];
    }
  }

  lemma {:induction false} NoDeadPieces(file: string, func: string, block: seq<Stmt>, k: nat)
    requires |block| >= 1 && block[0].If?
    requires |block[0].body| == 1 && block[0].body[0].Return?
    requires |block[0].orelse| == 1 && block[0].orelse[0].Return?
    requires forall i :: 1 <= i < |block| ==> Metrics.IsSimple(block[i]) && !IsTerminator(block[i])
    requires k <= |block|
    ensures Pieces(file, func, block, k) == []
    decreases |block| - k
  {
    if k < |block| {
      NoDeadPieces(file, func, block, k + 1);
      assert !DeadAt(block, k);
      if k == 0 {
        ReturningIfReportsNothing(file, func, block[0]);
      } else {
        SimpleHasNoNested(file, func, block[k]);
      }
    }
  }

  // ---------------------------------------------------------------------------
  // The detector over a whole file
  // ---------------------------------------------------------------------------

  function UnreachableIn(file: string, n: Node): seq<Smell> {
    if IsPlainDef(n) then MarkBlock(file, n.stmt.name, n.stmt.body, false) else []
  }

  lemma {:induction false} MarkedSmellsShape(file: string, func: string, block: seq<Stmt>, dead: bool)
    ensures forall s :: s in MarkBlock(file, func, block, dead) ==>
              s.kind == UnreachableCode && s.file == file && s.nodeName == func && s.severity == Medium
    decreases block, 1
  {
    if block != [] {
      MarkedNestedShape(file, func, block[0]);
      MarkedSmellsShape(file, func, block[1..], dead || IsTerminator(block[0]));
    }
  }

  lemma {:induction false} MarkedNestedShape(file: string, func: string, s: Stmt)
    ensures forall x :: x in MarkNested(file, func, s) ==>
              x.kind == UnreachableCode && x.file == file && x.nodeName == func && x.severity == Medium
    decreases s, 0
  {
    match s
    case If(_, _, body, orelse) =>
      MarkedSmellsShape(file, func, body, false);
      MarkedSmellsShape(file, func, orelse, false);
    case For(_, _, _, _, body, orelse) =>
      MarkedSmellsShape(file, func, body, false);
      MarkedSmellsShape(file, func, orelse, false);
    case While(_, _, body, orelse) =>
      MarkedSmellsShape(file, func, body, false);
      MarkedSmellsShape(file, func, orelse, false);
    case With(_, _, _, body) =>
      MarkedSmellsShape(file, func, body, false);
    case Try(_, body, handlers, orelse, finalbody) =>
      MarkedSmellsShape(file, func, body, false);
      MarkedSmellsShape(file, func, orelse, false);
      MarkedSmellsShape(file, func, finalbody, false);
      MarkedHandlersShape(file, func, handlers);
    case _ =>
  }

  lemma {:induction false} MarkedHandlersShape(file: string, func: string, hs: seq<Handler>)
    ensures forall x :: x in MarkHandlers(file, func, hs) ==>
              x.kind == UnreachableCode && x.file == file && x.nodeName == func && x.severity == Medium
    decreases hs
  {
    if hs != [] {
      MarkedSmellsShape(file, func, hs[0].body, false);
      MarkedHandlersShape(file, func, hs[1..]);
    }
  }

  /** The unreachable-code smells of a file: exactly what scanning the body of
      each plain `def` of the tree reports, and every one is medium and names
      the `def` it was found in. */
  function UnreachableSmells(file: string, tree: Module): (r: seq<Smell>)
    ensures forall s :: s in r <==>
              exists n :: n in Nodes(tree) && IsPlainDef(n) && s in MarkBlock(file, n.stmt.name, n.stmt.body, false)
    ensures forall s :: s in r ==>
              && s.kind == UnreachableCode && s.file == file && s.severity == Medium
              && exists n :: n in Nodes(tree) && IsPlainDef(n) && s.nodeName == n.stmt.name
  {
    var f := (n: Node) => UnreachableIn(file, n);
    forall s
      ensures s in FlatMap(Nodes(tree), f) <==>
                exists n :: n in Nodes(tree) && IsPlainDef(n) && s in MarkBlock(file, n.stmt.name, n.stmt.body, false)
    {
      FlatMapMemberNode(Nodes(tree), f, s);
    }
    forall s | s in FlatMap(Nodes(tree), f)
      ensures s.kind == UnreachableCode && s.file == file && s.severity == Medium
              && exists n :: n in Nodes(tree) && IsPlainDef(n) && s.nodeName == n.stmt.name
    {
      var n :| n in Nodes(tree) && IsPlainDef(n) && s in MarkBlock(file, n.stmt.name, n.stmt.body, false);
      MarkedSmellsShape(file, n.stmt.name, n.stmt.body, false);
    }
    FlatMap(Nodes(tree), f)
  }
}
