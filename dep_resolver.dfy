/**
 * `dependencyResolver` from v2/pkg/validator/dep_resolver.go: builds the name -> dependency
 * graph of the apps and addons, then rejects duplicate names, undeclared dependencies and
 * cycles with a three-colour depth-first search over the `resolved` and `unresolved` sets.
 */
module DepResolver {
  import opened Wrappers
  import opened DepGraph
  import opened PorterTypes

  /** The three errors `Resolve` reports, each carrying the names its message formats. */
  datatype ResolveError =
    | DuplicateName(name: string)                  // duplicate app/addon name detected: '<name>'
    | InvalidDependency(name: string, dep: string) // for app/addon '<name>': invalid dependency '<dep>'
    | CircularDependency(name: string, dep: string) // circular depedency detected: '<name>' -> '<dep>'

  /** The graph the construction loop builds: later entries overwrite earlier ones. */
  function GraphOf(rs: seq<Resource>): Graph
  {
    if rs == [] then map[]
    else GraphOf(rs[..|rs| - 1])[NameOf(rs[|rs| - 1]) := DepNames(rs[|rs| - 1])]
  }

  /** The graph has exactly one node per resource name. */
  lemma {:induction false} GraphOfKeys(rs: seq<Resource>)
    ensures forall n :: n in GraphOf(rs) <==> n in Names(rs)
  {
    if rs != [] {
      var front := rs[..|rs| - 1];
      GraphOfKeys(front);
      assert Names(rs) == Names(front) + [NameOf(rs[|rs| - 1])];
    }
  }

  /**
   * With distinct names, `graph[name]` is that resource's `DependsOn`, in declaration order.
   */
  lemma {:induction false} GraphOfEntry(rs: seq<Resource>, i: nat)
    requires Distinct(Names(rs)) && i < |rs|
    ensures NameOf(rs[i]) in GraphOf(rs) && GraphOf(rs)[NameOf(rs[i])] == DepNames(rs[i])
  {
    var front := rs[..|rs| - 1];
    assert Names(front) == Names(rs)[..|rs| - 1];
    if i < |rs| - 1 {
      GraphOfEntry(front, i);
      assert Names(rs)[i] != Names(rs)[|rs| - 1];
    }
  }

  /** What each error reports is true of the graph. */
  ghost predicate ErrorSound(g: Graph, e: ResolveError) {
    match e
    case DuplicateName(_) => true
    case InvalidDependency(a, b) => a in g && b in g[a] && b !in g
    case CircularDependency(a, b) =>
      a in g && b in g[a] && exists p :: IsPath(g, p) && p[0] == b && p[|p| - 1] == a
  }

  /** A reported circular dependency is a real cycle through the reported edge. */
  lemma CircularIsCycle(g: Graph, a: string, b: string)
    requires ErrorSound(g, CircularDependency(a, b))
    ensures HasCycle(g)
  {
    var p :| IsPath(g, p) && p[0] == b && p[|p| - 1] == a;
    ClosePath(g, p, a, b);
  }

  class DependencyResolver {
    var resources: seq<Resource>
    var graph: Graph
    var resolved: set<string>
    var unresolved: set<string>
    /** The resolved names, in the order they were resolved. */
    ghost var order: seq<string>
    /** The unresolved names, as the chain of active `depResolve` calls. */
    ghost var stack: seq<string>

    /** `newDependencyResolver`: empty graph, nothing resolved or in progress. */
    constructor (resources: seq<Resource>)
      ensures this.resources == resources
      ensures graph == map[] && resolved == {} && unresolved == {}
      ensures order == [] && stack == []
    {
      this.resources := resources;
      graph, resolved, unresolved := map[], {}, {};
      order, stack := [], [];
    }

    /** Every resolved name is a node whose dependencies are all resolved. */
    ghost predicate Closed()
      reads this
    {
      forall n :: n in resolved ==> n in graph && forall d :: d in graph[n] ==> d in resolved
    }

    /** `order` lists the resolved names once each, every one after its dependencies. */
    ghost predicate Ordered()
      reads this
    {
      && Distinct(order)
      && (forall n :: n in order <==> n in resolved)
      && forall i :: 0 <= i < |order| ==> order[i] in graph && forall d :: d in graph[order[i]] ==> d in order[..i]
    }

    /** `stack` lists the unresolved names, and each depends on the next. */
    ghost predicate Stacked()
      reads this
    {
      && (forall n :: n in stack <==> n in unresolved)
      && (forall n :: n in unresolved ==> n in graph)
      && (|stack| > 0 ==> IsPath(graph, stack))
    }

    ghost predicate Inv()
      reads this
    {
      Closed() && Ordered() && Stacked()
    }

    /**
     * `depResolve(name)`. Marks `name` unresolved, walks its dependencies in order and
     * recurses into each one that is neither resolved nor in progress; a dependency in
     * progress is a cycle. `nested` says the call comes from another `depResolve`, which
     * only ever enters a name that is not yet resolved.
     */
    method DepResolve(name: string, ghost nested: bool) returns (err: Option<ResolveError>)
      requires Inv()
      requires name in graph && name !in unresolved
      requires nested ==> name !in resolved
      requires |stack| > 0 ==> name in graph[stack[|stack| - 1]]
      modifies this`resolved, this`unresolved, this`order, this`stack
      decreases graph.Keys - resolved - unresolved, if name in resolved then 1 else 0
      ensures err.Some? ==> ErrorSound(graph, err.value) && !err.value.DuplicateName?
      ensures err.None? ==> Inv() && name in resolved && old(resolved) <= resolved
      ensures err.None? ==> unresolved == old(unresolved) && stack == old(stack)
    {
      unresolved := unresolved + {name};
      stack := stack + [name];
      assert IsPath(graph, stack) by {
        var s := stack;
        forall i | 0 <= i < |s| - 1 ensures s[i] in graph && s[i + 1] in graph[s[i]] {
          if i < |s| - 2 {
            assert s[i] == old(stack)[i] && s[i + 1] == old(stack)[i + 1];
          }
        }
      }
      var deps := graph[name];
      var k := 0;
      while k < |deps|
        invariant k <= |deps|
        invariant Inv()
        invariant unresolved == old(unresolved) + {name} && stack == old(stack) + [name]
        invariant old(resolved) <= resolved
        invariant forall j :: 0 <= j < k ==> deps[j] in resolved
      {
        var dep := deps[k];
        if dep !in graph {
          return Some(InvalidDependency(name, dep));
        }
        if dep !in resolved {
          if dep in unresolved {
            BackEdge(name, dep);
            return Some(CircularDependency(name, dep));
          }
          err := DepResolve(dep, true);
          if err.Some? {
            return err;
          }
        }
        k := k + 1;
      }
      Settle(name, old(stack), old(unresolved));
      return None;
    }

    /**
     * The end of a successful `depResolve(name)`: every dependency of `name` is resolved, so
     * `name` moves from unresolved to resolved and the call chain drops it.
     */
    method Settle(name: string, ghost stack0: seq<string>, ghost unresolved0: set<string>)
      requires Closed() && Ordered()
      requires name in graph && forall d :: d in graph[name] ==> d in resolved
      requires unresolved == unresolved0 + {name} && stack == stack0 + [name]
      requires (forall n :: n in stack0 <==> n in unresolved0) && (forall n :: n in unresolved0 ==> n in graph)
      requires |stack0| > 0 ==> IsPath(graph, stack0)
      requires name !in unresolved0
      modifies this`resolved, this`unresolved, this`order, this`stack
      ensures Inv() && resolved == old(resolved) + {name}
      ensures unresolved == unresolved0 && stack == stack0
    {
      unresolved := unresolved - {name};
      stack := stack0;
      if name !in resolved {
        ghost var order0 := order;
        order := order + [name];
        assert order[..|order0|] == order0;
        assert forall i :: 0 <= i < |order0| ==> order[..i] == order0[..i];
      }
      resolved := resolved + {name};
    }

    /** Reaching a name in progress closes a path from it down the call chain to `name`. */
    lemma BackEdge(name: string, dep: string)
      requires Stacked() && |stack| > 0 && stack[|stack| - 1] == name
      requires dep in unresolved && name in graph && dep in graph[name]
      ensures ErrorSound(graph, CircularDependency(name, dep))
    {
      var i :| 0 <= i < |stack| && stack[i] == dep;
      var p := stack[i..];
      assert IsPath(graph, p) by {
        forall j | 0 <= j < |p| - 1 ensures p[j] in graph && p[j + 1] in graph[p[j]] {
          assert p[j] == stack[i + j] && p[j + 1] == stack[i + j + 1];
        }
      }
      assert p[0] == dep && p[|p| - 1] == name;
    }

    /**
     * `Resolve`. Builds the graph, failing at the first repeated name, then resolves every
     * resource in declaration order and returns the first error. It succeeds exactly when
     * the names are distinct, every dependency is declared and there is no cycle.
     */
    method Resolve() returns (err: Option<ResolveError>)
      requires graph == map[] && resolved == {} && unresolved == {} && order == [] && stack == []
      modifies this
      ensures resources == old(resources)
      ensures |resources| == 0 ==> err == None && graph == map[]
      ensures !Distinct(Names(resources)) <==> err.Some? && err.value.DuplicateName?
      ensures err.Some? && err.value.DuplicateName? ==>
        exists j :: 0 <= j < |resources| && Names(resources)[j] == err.value.name
          && err.value.name in Names(resources)[..j] && Distinct(Names(resources)[..j])
      ensures Distinct(Names(resources)) ==> graph == GraphOf(resources)
      ensures err.Some? ==> ErrorSound(graph, err.value)
      ensures err.None? ==> resolved == graph.Keys && unresolved == {}
      ensures err.None? ==> AllDeclared(graph) && TopoOrder(graph, order)
      ensures err.None? <==>
        Distinct(Names(resources)) && AllDeclared(GraphOf(resources)) && !HasCycle(GraphOf(resources))
    {
      if |resources| > 0 {
        err := BuildGraph();
        if err.Some? {
          return err;
        }
        err := ResolveAll();
        if err.Some? {
          Refute(err.value);
          return err;
        }
        TopoOrderAcyclic(graph, order);
      }
      return None;
    }

    /** The construction loop of `Resolve`: one entry per resource, stopping at a repeated name. */
    method BuildGraph() returns (err: Option<ResolveError>)
      requires graph == map[]
      modifies this`graph
      ensures err.Some? ==> err.value.DuplicateName? && !Distinct(Names(resources))
      ensures err.Some? ==>
        exists j :: 0 <= j < |resources| && Names(resources)[j] == err.value.name
          && err.value.name in Names(resources)[..j] && Distinct(Names(resources)[..j])
      ensures err.None? ==> Distinct(Names(resources)) && graph == GraphOf(resources)
    {
      var names := Names(resources);
      var i := 0;
      while i < |resources|
        invariant i <= |resources|
        invariant Distinct(names[..i])
        invariant graph == GraphOf(resources[..i])
      {
        var name := NameOf(resources[i]);
        if name in graph {
          DuplicateAt(resources, i);
          assert names[i] == name && name in names[..i];
          return Some(DuplicateName(name));
        }
        BuildStep(resources, i);
        graph := graph[name := []];
        AppendDeps(i);
        i := i + 1;
      }
      assert resources[..i] == resources;
      assert names[..i] == names;
      return None;
    }

    /** A name already in the graph of the first `i` resources occurs among their names. */
    lemma DuplicateAt(rs: seq<Resource>, i: nat)
      requires i < |rs| && NameOf(rs[i]) in GraphOf(rs[..i])
      ensures NameOf(rs[i]) in Names(rs)[..i] && !Distinct(Names(rs))
    {
      GraphOfKeys(rs[..i]);
      assert Names(rs[..i]) == Names(rs)[..i];
      var j :| 0 <= j < i && Names(rs)[..i][j] == NameOf(rs[i]);
      assert Names(rs)[j] == Names(rs)[i];
    }

    /** Adding a resource whose name is new keeps the names distinct and extends the graph by its entry. */
    lemma BuildStep(rs: seq<Resource>, i: nat)
      requires i < |rs| && Distinct(Names(rs)[..i]) && NameOf(rs[i]) !in GraphOf(rs[..i])
      ensures Distinct(Names(rs)[..i + 1])
      ensures GraphOf(rs[..i + 1]) == GraphOf(rs[..i])[NameOf(rs[i]) := DepNames(rs[i])]
    {
      GraphOfKeys(rs[..i]);
      assert Names(rs[..i]) == Names(rs)[..i];
      assert Names(rs)[..i + 1] == Names(rs)[..i] + [NameOf(rs[i])];
      assert rs[..i + 1][..i] == rs[..i];
    }

    /** The inner loop of the construction: `graph[name]` gets the dependencies one by one. */
    method AppendDeps(i: nat)
      requires i < |resources| && NameOf(resources[i]) in graph && graph[NameOf(resources[i])] == []
      modifies this`graph
      ensures graph == old(graph)[NameOf(resources[i]) := DepNames(resources[i])]
    {
      var name := NameOf(resources[i]);
      var ds := resources[i].dependsOn;
      for j := 0 to |ds|
        invariant graph == old(graph)[name := DepNames(resources[i])[..j]]
      {
        graph := graph[name := graph[name] + [ds[j].GetValue("")]];
        assert DepNames(resources[i])[..j + 1] == DepNames(resources[i])[..j] + [ds[j].GetValue("")];
      }
      assert DepNames(resources[i])[..|ds|] == DepNames(resources[i]);
    }

    /** The second loop of `Resolve`: `depResolve` on every resource, in declaration order. */
    method ResolveAll() returns (err: Option<ResolveError>)
      requires graph == GraphOf(resources)
      requires resolved == {} && unresolved == {} && order == [] && stack == []
      modifies this`resolved, this`unresolved, this`order, this`stack
      ensures err.Some? ==> ErrorSound(graph, err.value) && !err.value.DuplicateName?
      ensures err.None? ==> Inv() && resolved == graph.Keys && unresolved == {}
    {
      GraphOfKeys(resources);
      ghost var names := Names(resources);
      var i := 0;
      while i < |resources|
        invariant i <= |resources|
        invariant Inv() && unresolved == {} && stack == []
        invariant forall j :: 0 <= j < i ==> names[j] in resolved
      {
        var name := NameOf(resources[i]);
        assert name == names[i] && name in graph;
        err := DepResolve(name, false);
        if err.Some? {
          return err;
        }
        i := i + 1;
      }
      assert forall n :: n in graph ==> n in resolved by {
        forall n | n in graph ensures n in resolved {
          var j :| 0 <= j < |names| && names[j] == n;
        }
      }
      return None;
    }

    /** A sound dependency error contradicts "declared and acyclic". */
    lemma Refute(e: ResolveError)
      requires ErrorSound(graph, e) && !e.DuplicateName?
      ensures !(AllDeclared(graph) && !HasCycle(graph))
    {
      if e.CircularDependency? {
        CircularIsCycle(graph, e.name, e.dep);
      }
    }
  }
}
