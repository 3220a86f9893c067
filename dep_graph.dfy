/**
 * The dependency graph the resolver of v2/pkg/validator/dep_resolver.go builds: each
 * resource name maps to the names it depends on. Paths, cycles and topological orders
 * are the vocabulary its contracts are stated in.
 */
module DepGraph {
  import opened Wrappers

  /** Name -> dependency names, in declaration order. */
  type Graph = map<string, seq<string>>

  /** Every dependency of every node is itself a node of the graph. */
  ghost predicate AllDeclared(g: Graph) {
    forall n :: n in g ==> forall d :: d in g[n] ==> d in g
  }

  /** `p` follows dependency edges: each element but the last is a node and depends on the next. */
  ghost predicate IsPath(g: Graph, p: seq<string>) {
    |p| >= 1 && forall i :: 0 <= i < |p| - 1 ==> p[i] in g && p[i + 1] in g[p[i]]
  }

  /** A path of at least one edge that returns to where it started. */
  ghost predicate IsCycle(g: Graph, p: seq<string>) {
    |p| >= 2 && IsPath(g, p) && p[0] == p[|p| - 1]
  }

  ghost predicate HasCycle(g: Graph) {
    exists p :: IsCycle(g, p)
  }

  /** `o` lists every node exactly once, each after all of its dependencies. */
  ghost predicate TopoOrder(g: Graph, o: seq<string>) {
    && Distinct(o)
    && (forall n :: n in g <==> n in o)
    && forall i :: 0 <= i < |o| ==> forall d :: d in g[o[i]] ==> d in o[..i]
  }

  /** The position of the first occurrence of `x` in `s`. */
  function IndexOf<T(==)>(s: seq<T>, x: T): (i: nat)
    requires x in s
    ensures i < |s| && s[i] == x && x !in s[..i]
  {
    if s[0] == x then 0
    else
      var j := IndexOf(s[1..], x);
      assert s[..j + 1] == [s[0]] + s[1..][..j];
      j + 1
  }

  /** In a sequence without repetitions, the position of an element is unique. */
  lemma IndexOfDistinct<T>(s: seq<T>, j: nat)
    requires Distinct(s) && j < |s|
    ensures IndexOf(s, s[j]) == j
  {
  }

  /** A dependency comes strictly earlier in a topological order than its dependent. */
  lemma EdgeDescends(g: Graph, o: seq<string>, n: string, d: string)
    requires TopoOrder(g, o) && n in g && d in g[n]
    ensures d in o && IndexOf(o, d) < IndexOf(o, n)
  {
    var i := IndexOf(o, n);
    assert d in o[..i];
    var j :| 0 <= j < i && o[..i][j] == d;
    IndexOfDistinct(o, j);
  }

  /** Along a path of at least one edge, positions in a topological order strictly decrease. */
  lemma {:induction false} PathDescends(g: Graph, o: seq<string>, p: seq<string>)
    requires TopoOrder(g, o) && IsPath(g, p) && |p| >= 2
    ensures p[0] in o && p[|p| - 1] in o
    ensures IndexOf(o, p[|p| - 1]) < IndexOf(o, p[0])
  {
    EdgeDescends(g, o, p[0], p[1]);
    if |p| > 2 {
      var q := p[1..];
      assert IsPath(g, q) by {
        forall i | 0 <= i < |q| - 1 ensures q[i] in g && q[i + 1] in g[q[i]] {
          assert q[i] == p[i + 1] && q[i + 1] == p[i + 2];
        }
      }
      PathDescends(g, o, q);
    }
  }

  /** A graph that has a topological order has no cycle. */
  lemma TopoOrderAcyclic(g: Graph, o: seq<string>)
    requires TopoOrder(g, o)
    ensures !HasCycle(g)
  {
    if HasCycle(g) {
      var p :| IsCycle(g, p);
      PathDescends(g, o, p);
      assert false;
    }
  }

  /** A path from `b` to `a`, closed by an edge from `a` back to `b`, is a cycle. */
  lemma ClosePath(g: Graph, p: seq<string>, a: string, b: string)
    requires IsPath(g, p) && p[0] == b && p[|p| - 1] == a && a in g && b in g[a]
    ensures IsCycle(g, p + [b]) && HasCycle(g)
  {
    var c := p + [b];
    assert IsPath(g, c) by {
      forall i | 0 <= i < |c| - 1 ensures c[i] in g && c[i + 1] in g[c[i]] {
        if i < |p| - 1 {
          assert c[i] == p[i] && c[i + 1] == p[i + 1];
        } else {
          assert c[i] == a && c[i + 1] == b;
        }
      }
    }
    assert IsCycle(g, c);
  }
}
