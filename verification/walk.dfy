/**
  `ast.walk` and the folds the analyzer runs over it.

  Python's `ast.walk` is breadth-first: it pops the front of a queue, yields it
  and appends its children. `Walk` is exactly that. The order matters wherever the
  first match wins (the auto-fixer's target search) or smells are reported in walk
  order; for everything that only counts, `WalkTally` shows that the breadth-first
  walk agrees with plain structural recursion, and `WalkPermutesPreorder` shows
  that it visits exactly the nodes of the tree, each once.
 */
module Traversal {
  import opened Syntax

  lemma BfsStep(queue: seq<Node>)
    requires queue != []
    ensures SumSize(queue[1..] + Children(queue[0])) < SumSize(queue)
  {
    SumSizeCons(queue);
    SumSizeAppend(queue[1..], Children(queue[0]));
    ChildrenSmaller(queue[0]);
  }

  /** Breadth-first enumeration of the forest `queue`. */
  function Bfs(queue: seq<Node>): seq<Node>
    decreases SumSize(queue)
  {
    if queue == [] then []
    else
      BfsStep(queue);
      [queue[0]] + Bfs(queue[1..] + Children(queue[0]))
  }

  /** `ast.walk(n)`: `n` first, then its descendants breadth-first. */
  function Walk(n: Node): seq<Node> {
    Bfs([n])
  }

  // ---------------------------------------------------------------------------
  // Structural reference definitions
  // ---------------------------------------------------------------------------

  /** Depth-first pre-order enumeration: the structural reference for `Walk`. */
  function Preorder(n: Node): seq<Node>
    decreases NodeSize(n), 0
  {
    ChildrenSmaller(n);
    [n] + PreorderAll(Children(n))
  }

  function PreorderAll(ns: seq<Node>): seq<Node>
    decreases SumSize(ns), 1
  {
    if ns == [] then []
    else
      SumSizeCons(ns);
      Preorder(ns[0]) + PreorderAll(ns[1..])
  }

  /** `f` summed over the nodes of `ns`, in order. */
  function Tally(ns: seq<Node>, f: Node -> int): int {
    if ns == [] then 0 else f(ns[0]) + Tally(ns[1..], f)
  }

  /** `f` summed over the subtree of `n` by structural recursion. */
  function TreeTally(n: Node, f: Node -> int): int
    decreases NodeSize(n), 0
  {
    ChildrenSmaller(n);
    f(n) + ForestTally(Children(n), f)
  }

  function ForestTally(ns: seq<Node>, f: Node -> int): int
    decreases SumSize(ns), 1
  {
    if ns == [] then 0
    else
      SumSizeCons(ns);
      TreeTally(ns[0], f) + ForestTally(ns[1..], f)
  }

  /** Number of nodes of `ns` satisfying `p`. */
  function Count(ns: seq<Node>, p: Node -> bool): nat {
    if ns == [] then 0 else (if p(ns[0]) then 1 else 0) + Count(ns[1..], p)
  }

  function Indicator(p: Node -> bool): Node -> int {
    x => if p(x) then 1 else 0
  }

  /** The concatenation of `f(n)` over the nodes of `ns`, in order: how a detector
      that may report several smells per node collects them over a walk. */
  function FlatMap<T>(ns: seq<Node>, f: Node -> seq<T>): seq<T> {
    if ns == [] then [] else f(ns[0]) + FlatMap(ns[1..], f)
  }

  // ---------------------------------------------------------------------------
  // Lemmas
  // ---------------------------------------------------------------------------

  lemma {:induction false} TallyAppend(a: seq<Node>, b: seq<Node>, f: Node -> int)
    ensures Tally(a + b, f) == Tally(a, f) + Tally(b, f)
  {
    if a == [] {
      assert a + b == b;
    } else {
      assert (a + b)[1..] == a[1..] + b;
      TallyAppend(a[1..], b, f);
    }
  }

  lemma {:induction false} ForestTallyAppend(a: seq<Node>, b: seq<Node>, f: Node -> int)
    ensures ForestTally(a + b, f) == ForestTally(a, f) + ForestTally(b, f)
  {
    if a == [] {
      assert a + b == b;
    } else {
      assert (a + b)[1..] == a[1..] + b;
      ForestTallyAppend(a[1..], b, f);
    }
  }

  lemma {:induction false} PreorderAllAppend(a: seq<Node>, b: seq<Node>)
    ensures PreorderAll(a + b) == PreorderAll(a) + PreorderAll(b)
  {
    if a == [] {
      assert a + b == b;
    } else {
      assert (a + b)[1..] == a[1..] + b;
      PreorderAllAppend(a[1..], b);
    }
  }

  lemma {:induction false} BfsTally(q: seq<Node>, f: Node -> int)
    ensures Tally(Bfs(q), f) == ForestTally(q, f)
    decreases SumSize(q)
  {
    if q != [] {
      BfsStep(q);
      var rest := q[1..] + Children(q[0]);
      BfsTally(rest, f);
      ForestTallyAppend(q[1..], Children(q[0]), f);
      assert ([q[0]] + Bfs(rest))[1..] == Bfs(rest);
    }
  }

  /** Summing over the breadth-first walk gives the structural sum: every count
      the analyzer takes over `ast.walk` can be read off the tree's shape. */
  lemma WalkTally(n: Node, f: Node -> int)
    ensures Tally(Walk(n), f) == TreeTally(n, f)
  {
    BfsTally([n], f);
    assert [n][1..] == [];
  }

  lemma {:induction false} BfsPermutesPreorder(q: seq<Node>)
    ensures multiset(Bfs(q)) == multiset(PreorderAll(q))
    decreases SumSize(q)
  {
    if q != [] {
      BfsStep(q);
      var rest := q[1..] + Children(q[0]);
      BfsPermutesPreorder(rest);
      PreorderAllAppend(q[1..], Children(q[0]));
    }
  }

  /** The breadth-first walk is a permutation of the pre-order enumeration:
      it visits every node of the tree, and each exactly once. */
  lemma WalkPermutesPreorder(n: Node)
    ensures multiset(Walk(n)) == multiset(Preorder(n))
  {
    BfsPermutesPreorder([n]);
    assert [n][1..] == [];
    assert PreorderAll([n]) == Preorder(n) + PreorderAll([]);
  }

  lemma WalkMember(n: Node, x: Node)
    ensures x in Walk(n) <==> x in Preorder(n)
  {
    WalkPermutesPreorder(n);
    assert x in Walk(n) <==> x in multiset(Walk(n));
    assert x in Preorder(n) <==> x in multiset(Preorder(n));
  }

  lemma {:induction false} CountIsTally(ns: seq<Node>, p: Node -> bool)
    ensures Count(ns, p) == Tally(ns, Indicator(p))
  {
    if ns != [] {
      CountIsTally(ns[1..], p);
    }
  }

  /** Counting over the walk agrees with counting over the tree's structure. */
  lemma WalkCount(n: Node, p: Node -> bool)
    ensures Count(Walk(n), p) == TreeTally(n, Indicator(p))
  {
    CountIsTally(Walk(n), p);
    WalkTally(n, Indicator(p));
  }

  lemma {:induction false} FlatMapMember<T>(ns: seq<Node>, f: Node -> seq<T>, x: T)
    ensures x in FlatMap(ns, f) <==> exists i :: 0 <= i < |ns| && x in f(ns[i])
  {
    if ns != [] {
      FlatMapMember(ns[1..], f, x);
      if x in FlatMap(ns[1..], f) {
        var i :| 0 <= i < |ns[1..]| && x in f(ns[1..][i]);
        assert x in f(ns[i + 1]);
      }
      if exists i :: 0 <= i < |ns| && x in f(ns[i]) {
        var i :| 0 <= i < |ns| && x in f(ns[i]);
        if i > 0 {
          assert x in f(ns[1..][i - 1]);
        }
      }
    }
  }

  lemma {:induction false} FlatMapLength<T>(ns: seq<Node>, f: Node -> seq<T>)
    ensures |FlatMap(ns, f)| == Tally(ns, n => |f(n)|)
  {
    if ns != [] {
      FlatMapLength(ns[1..], f);
    }
  }

  /** A per-node function that yields at most one item contributes one item per
      node it fires on. */
  lemma {:induction false} FlatMapAtMostOne<T>(ns: seq<Node>, f: Node -> seq<T>)
    requires forall n :: |f(n)| <= 1
    ensures |FlatMap(ns, f)| == Count(ns, n => f(n) != [])
  {
    if ns != [] {
      FlatMapAtMostOne(ns[1..], f);
    }
  }

  /** The shape of every detector that reports at most one smell per node:
      the smells are exactly `mk(n)` for the nodes `n` satisfying `c`, one each. */
  lemma {:induction false} FlatMapOfOptional<T>(ns: seq<Node>, f: Node -> seq<T>, c: Node -> bool, mk: Node -> T)
    requires forall n :: f(n) == (if c(n) then [mk(n)] else [])
    ensures forall x :: x in FlatMap(ns, f) <==> exists n :: n in ns && c(n) && x == mk(n)
    ensures |FlatMap(ns, f)| == Count(ns, c)
  {
    if ns != [] {
      FlatMapOfOptional(ns[1..], f, c, mk);
      forall x
        ensures x in FlatMap(ns, f) <==> exists n :: n in ns && c(n) && x == mk(n)
      {
        if x in FlatMap(ns, f) && x !in f(ns[0]) {
          var n :| n in ns[1..] && c(n) && x == mk(n);
          assert n in ns;
        }
        if exists n :: n in ns && c(n) && x == mk(n) {
          var n :| n in ns && c(n) && x == mk(n);
          if n != ns[0] {
            assert n in ns[1..];
          }
        }
      }
    }
  }
}
