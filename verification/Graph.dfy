/** Reachability in a finite directed graph, cyclic or not. */
module Graph {

  type Graph = map<string, set<string>>

  function Succ(g: Graph, a: string): set<string> {
    if a in g then g[a] else {}
  }

  /** `b` is reached from `a` by exactly `n` edges. */
  ghost predicate Walk(g: Graph, a: string, b: string, n: nat)
    decreases n
  {
    if n == 0 then a == b
    else exists mid :: mid in Succ(g, a) && Walk(g, mid, b, n - 1)
  }

  ghost predicate Reachable(g: Graph, a: string, b: string) {
    exists n: nat :: Walk(g, a, b, n)
  }

  ghost predicate ReachableFrom(g: Graph, roots: set<string>, b: string) {
    exists a :: a in roots && Reachable(g, a, b)
  }

  ghost predicate Closed(g: Graph, s: set<string>) {
    forall a, b :: a in s && b in Succ(g, a) ==> b in s
  }

  function Targets(g: Graph): set<string> {
    set a, b | a in g && b in g[a] :: b
  }

  ghost function ReachSet(g: Graph, roots: set<string>): set<string> {
    set b | b in roots + Targets(g) && ReachableFrom(g, roots, b)
  }

  lemma {:induction false} WalkExtend(g: Graph, a: string, b: string, c: string, n: nat)
    requires Walk(g, a, b, n) && c in Succ(g, b)
    ensures Walk(g, a, c, n + 1)
    decreases n
  {
    if n == 0 {
      assert Walk(g, c, c, 0);
    } else {
      var mid :| mid in Succ(g, a) && Walk(g, mid, b, n - 1);
      WalkExtend(g, mid, b, c, n - 1);
    }
  }

  lemma ReachableSelf(g: Graph, a: string)
    ensures Reachable(g, a, a)
  {
    assert Walk(g, a, a, 0);
  }

  lemma ReachableExtend(g: Graph, roots: set<string>, b: string, c: string)
    requires ReachableFrom(g, roots, b) && c in Succ(g, b)
    ensures ReachableFrom(g, roots, c)
  {
    var a :| a in roots && Reachable(g, a, b);
    var n: nat :| Walk(g, a, b, n);
    WalkExtend(g, a, b, c, n);
    assert Reachable(g, a, c);
  }

  lemma {:induction false} WalkStays(g: Graph, s: set<string>, a: string, b: string, n: nat)
    requires Closed(g, s) && a in s && Walk(g, a, b, n)
    ensures b in s
    decreases n
  {
    if n != 0 {
      var mid :| mid in Succ(g, a) && Walk(g, mid, b, n - 1);
      WalkStays(g, s, mid, b, n - 1);
    }
  }

  /** Every reachable node lies in every closed set that holds the roots. */
  lemma ReachableStays(g: Graph, s: set<string>, roots: set<string>)
    requires Closed(g, s) && roots <= s
    ensures forall b :: ReachableFrom(g, roots, b) ==> b in s
  {
    forall b | ReachableFrom(g, roots, b) ensures b in s {
      var a :| a in roots && Reachable(g, a, b);
      var n: nat :| Walk(g, a, b, n);
      WalkStays(g, s, a, b, n);
    }
  }

  lemma {:induction false} WalkEndsAtTarget(g: Graph, a: string, b: string, n: nat)
    requires Walk(g, a, b, n)
    ensures a == b || b in Targets(g)
    decreases n
  {
    if n != 0 {
      var mid :| mid in Succ(g, a) && Walk(g, mid, b, n - 1);
      WalkEndsAtTarget(g, mid, b, n - 1);
    }
  }

  /** The reach set is exactly the reachable nodes: it is finite by itself, the
      bound in its definition loses nothing. */
  lemma ReachSetExact(g: Graph, roots: set<string>)
    ensures forall b :: b in ReachSet(g, roots) <==> ReachableFrom(g, roots, b)
    ensures roots <= ReachSet(g, roots) && Closed(g, ReachSet(g, roots))
  {
    forall b | ReachableFrom(g, roots, b) ensures b in ReachSet(g, roots) {
      var a :| a in roots && Reachable(g, a, b);
      var n: nat :| Walk(g, a, b, n);
      WalkEndsAtTarget(g, a, b, n);
    }
    forall r | r in roots ensures r in ReachSet(g, roots) {
      ReachableSelf(g, r);
    }
    forall a, b | a in ReachSet(g, roots) && b in Succ(g, a) ensures b in ReachSet(g, roots) {
      ReachableExtend(g, roots, a, b);
    }
  }

  /** A closed set holding the roots and made of reachable nodes is the reach set:
      how each worklist traversal is judged at its end. */
  lemma ClosedReachableIsReachSet(g: Graph, roots: set<string>, s: set<string>)
    requires roots <= s && Closed(g, s) && forall x :: x in s ==> ReachableFrom(g, roots, x)
    ensures s == ReachSet(g, roots)
  {
    ReachSetExact(g, roots);
    ReachableStays(g, s, roots);
  }
}
