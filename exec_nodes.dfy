/**
 * `GetExecNodes`, shared by internal/exec/exec.go and v2/internal/exec/exec.go: one node per
 * resource name (a later resource with the same name replaces the earlier one), then, in
 * map order, each node's parents looked up by dependency name (nil for a name that is not
 * declared). Both versions differ only in how a resource's name and dependency names are
 * read, so the construction is generic in `key` and `deps`.
 */
module ExecNodes {
  import opened Wrappers
  import opened Exec
  import opened GoMaps
  import DepGraph

  /** The resource `resourceMap` keeps under each name: assignments in order, later ones win. */
  function Registry<R>(rs: seq<R>, key: R -> string): map<string, R>
  {
    if rs == [] then map[]
    else Registry(rs[..|rs| - 1], key)[key(rs[|rs| - 1]) := rs[|rs| - 1]]
  }

  /** The names `resourceMap` holds are exactly the names of the resources. */
  lemma {:induction false} RegistryKeys<R>(rs: seq<R>, key: R -> string)
    ensures forall k :: k in Registry(rs, key) <==> exists i :: 0 <= i < |rs| && key(rs[i]) == k
  {
    if rs != [] {
      var front := rs[..|rs| - 1];
      RegistryKeys(front, key);
      assert Registry(rs, key) == Registry(front, key)[key(rs[|rs| - 1]) := rs[|rs| - 1]];
      forall k | k in Registry(rs, key)
        ensures exists i :: 0 <= i < |rs| && key(rs[i]) == k
      {
        if k != key(rs[|rs| - 1]) {
          var i :| 0 <= i < |front| && key(front[i]) == k;
          assert key(rs[i]) == k;
        }
      }
      forall i | 0 <= i < |rs|
        ensures key(rs[i]) in Registry(rs, key)
      {
        if i < |rs| - 1 {
          assert key(front[i]) == key(rs[i]);
        }
      }
    }
  }

  /** Each name maps to the LAST resource that carries it. */
  lemma {:induction false} RegistryLast<R>(rs: seq<R>, key: R -> string, i: nat)
    requires i < |rs|
    requires forall j :: i < j < |rs| ==> key(rs[j]) != key(rs[i])
    ensures key(rs[i]) in Registry(rs, key) && Registry(rs, key)[key(rs[i])] == rs[i]
  {
    if i < |rs| - 1 {
      var front := rs[..|rs| - 1];
      assert front[i] == rs[i];
      RegistryLast(front, key, i);
    }
  }

  /** Every resource `resourceMap` keeps is stored under its own name. */
  lemma {:induction false} RegistryKeyed<R>(rs: seq<R>, key: R -> string)
    ensures forall k :: k in Registry(rs, key) ==> key(Registry(rs, key)[k]) == k
  {
    if rs != [] {
      RegistryKeyed(rs[..|rs| - 1], key);
    }
  }

  /** The name graph of the nodes: each kept resource's name -> its dependency names. */
  function KeyGraph<R>(reg: map<string, R>, deps: R -> seq<string>): DepGraph.Graph
  {
    map k | k in reg :: deps(reg[k])
  }

  /** `resourceMap[dep]`: the node of that name, or nil when no resource has it. */
  function Lookup<R, E>(index: map<string, ExecNode<R, E>>, dep: string): ExecNode?<R, E>
  {
    if dep in index then index[dep] else null
  }

  /** `parents` of a node with dependency names `ds`: `resourceMap[dep]` for each, in order. */
  function Parents<R, E>(index: map<string, ExecNode<R, E>>, ds: seq<string>): seq<ExecNode?<R, E>>
  {
    if ds == [] then [] else Parents(index, ds[..|ds| - 1]) + [Lookup(index, ds[|ds| - 1])]
  }

  /** Parent `t` is the lookup of dependency `t`. */
  lemma {:induction false} ParentsAt<R, E>(index: map<string, ExecNode<R, E>>, ds: seq<string>)
    ensures |Parents(index, ds)| == |ds|
    ensures forall t :: 0 <= t < |ds| ==> Parents(index, ds)[t] == Lookup(index, ds[t])
  {
    if ds != [] {
      var front := ds[..|ds| - 1];
      ParentsAt(index, front);
      forall t | 0 <= t < |ds| - 1
        ensures Parents(index, ds)[t] == Lookup(index, ds[t])
      {
        assert front[t] == ds[t];
      }
    }
  }

  /**
   * The first loop of `GetExecNodes`: a new, untouched node for each resource, stored under
   * the resource's name, a later resource replacing an earlier node of the same name.
   */
  method RegisterNodes<R, E>(resources: seq<R>, key: R -> string)
    returns (resourceMap: map<string, ExecNode<R, E>>)
    ensures resourceMap.Keys == Registry(resources, key).Keys
    ensures forall k :: k in resourceMap ==>
      resourceMap[k].resource == Registry(resources, key)[k] && key(resourceMap[k].resource) == k
    ensures forall k :: k in resourceMap ==>
      fresh(resourceMap[k]) && resourceMap[k].parents == [] &&
      !resourceMap[k].isExecStarted && !resourceMap[k].isExecFinished && resourceMap[k].execError == None
  {
    resourceMap := map[];
    for i := 0 to |resources|
      invariant resourceMap.Keys == Registry(resources[..i], key).Keys
      invariant forall k :: k in resourceMap ==> resourceMap[k].resource == Registry(resources[..i], key)[k]
      invariant forall k :: k in resourceMap ==>
        fresh(resourceMap[k]) && resourceMap[k].parents == [] &&
        !resourceMap[k].isExecStarted && !resourceMap[k].isExecFinished && resourceMap[k].execError == None
    {
      assert resources[..i + 1][..i] == resources[..i];
      var node := new ExecNode(resources[i]);
      resourceMap := resourceMap[key(resources[i]) := node];
    }
    assert resources[..|resources|] == resources;
    RegistryKeyed(resources, key);
  }

  /** The inner loop of `GetExecNodes`: append `resourceMap[dep]` (nil when absent) for each dependency. */
  method LinkParents<R, E>(execNode: ExecNode<R, E>, resourceMap: map<string, ExecNode<R, E>>, ds: seq<string>)
    requires execNode.parents == []
    modifies execNode`parents
    ensures execNode.parents == Parents(resourceMap, ds)
  {
    for j := 0 to |ds|
      invariant execNode.parents == Parents(resourceMap, ds[..j])
    {
      assert ds[..j + 1][..j] == ds[..j];
      var parent: ExecNode?<R, E> := if ds[j] in resourceMap then resourceMap[ds[j]] else null;
      execNode.parents := execNode.parents + [parent];
    }
    assert ds[..|ds|] == ds;
  }

  /**
   * The second loop of `GetExecNodes`: visit `resourceMap` in map order, link each node's
   * parents and collect the node.
   */
  method LinkAll<R, E>(resourceMap: map<string, ExecNode<R, E>>, key: R -> string, deps: R -> seq<string>)
    returns (nodes: seq<ExecNode<R, E>>)
    requires forall k :: k in resourceMap ==> key(resourceMap[k].resource) == k && resourceMap[k].parents == []
    modifies (set k | k in resourceMap :: resourceMap[k])`parents
    ensures Distinct(nodes) && |nodes| == |resourceMap|
    ensures forall k :: k in resourceMap ==> resourceMap[k] in nodes
    ensures forall n :: n in nodes ==> key(n.resource) in resourceMap && resourceMap[key(n.resource)] == n
    ensures forall n :: n in nodes ==> n.parents == Parents(resourceMap, deps(n.resource))
  {
    var keys := MapOrder(resourceMap);
    ghost var vals := ValuesAt(resourceMap, keys, key);
    nodes := LinkEach(resourceMap, keys, deps, vals);
    forall k | k in resourceMap
      ensures resourceMap[k] in nodes
    {
      var j :| 0 <= j < |keys| && keys[j] == k;
      assert nodes[j] == resourceMap[k];
    }
  }

  /** The loop over `keys`: link the node of each name, in order, and collect it. */
  method LinkEach<R, E>(resourceMap: map<string, ExecNode<R, E>>, keys: seq<string>, deps: R -> seq<string>,
                        ghost vals: seq<ExecNode<R, E>>)
    returns (nodes: seq<ExecNode<R, E>>)
    requires |vals| == |keys| && Distinct(vals)
    requires forall j :: 0 <= j < |keys| ==> keys[j] in resourceMap && vals[j] == resourceMap[keys[j]]
    requires forall j :: 0 <= j < |vals| ==> vals[j].parents == []
    modifies (set j | 0 <= j < |vals| :: vals[j])`parents
    ensures nodes == vals
    ensures forall j :: 0 <= j < |vals| ==> vals[j].parents == Parents(resourceMap, deps(vals[j].resource))
  {
    nodes := [];
    for i := 0 to |keys|
      invariant |nodes| == i && forall j :: 0 <= j < i ==> nodes[j] == vals[j]
      invariant forall j :: 0 <= j < i ==> vals[j].parents == Parents(resourceMap, deps(vals[j].resource))
      invariant forall j :: i <= j < |vals| ==> vals[j].parents == []
    {
      var execNode := resourceMap[keys[i]];
      LinkParents(execNode, resourceMap, deps(execNode.resource));
      nodes := nodes + [execNode];
    }
  }

  /** The nodes of `resourceMap` in the order `keys` lists their names: distinct, since the names are. */
  ghost method ValuesAt<R, E>(resourceMap: map<string, ExecNode<R, E>>, keys: seq<string>, key: R -> string)
    returns (vals: seq<ExecNode<R, E>>)
    requires forall k :: k in keys ==> k in resourceMap
    requires forall k :: k in resourceMap ==> key(resourceMap[k].resource) == k
    requires forall i, j :: 0 <= i < j < |keys| ==> keys[i] != keys[j]
    ensures |vals| == |keys| && Distinct(vals)
    ensures forall j :: 0 <= j < |keys| ==> vals[j] == resourceMap[keys[j]]
  {
    vals := seq(|keys|, j requires 0 <= j < |keys| => resourceMap[keys[j]]);
    assert forall i, j :: 0 <= i < j < |keys| ==> key(vals[i].resource) != key(vals[j].resource);
  }

  /**
   * `GetExecNodes` on the resource list `resources`. The ghost `index` is the final
   * `resourceMap`. On return every node is new and untouched; the nodes are exactly the
   * values of `index`, in map order, one per distinct name; each holds the last resource of
   * its name; and each node's parents follow its dependency names in order. The Go function
   * never returns an error, so no error result is modelled.
   */
  method LinkNodes<R, E>(resources: seq<R>, key: R -> string, deps: R -> seq<string>)
    returns (nodes: seq<ExecNode<R, E>>, ghost index: map<string, ExecNode<R, E>>)
    ensures Distinct(nodes) && |nodes| == |index|
    ensures forall n :: n in nodes ==> fresh(n) && !n.isExecStarted && !n.isExecFinished && n.execError == None
    ensures index.Keys == Registry(resources, key).Keys
    ensures forall k :: k in index ==>
      index[k] in nodes && index[k].resource == Registry(resources, key)[k] && key(index[k].resource) == k
    ensures forall n :: n in nodes ==> key(n.resource) in index && index[key(n.resource)] == n
    ensures forall n :: n in nodes ==> n.parents == Parents(index, deps(n.resource))
  {
    var resourceMap := RegisterNodes<R, E>(resources, key);
    index := resourceMap;
    nodes := LinkAll(resourceMap, key, deps);
  }

  /**
   * When every dependency name is declared and the name graph has a topological order,
   * the linked nodes have the shape `Execute` needs: every parent is a node of the list,
   * and ranking nodes by their name's position in the order puts every parent below its
   * child.
   */
  lemma LinkedWired<R, E>(nodes: seq<ExecNode<R, E>>, index: map<string, ExecNode<R, E>>,
                          resources: seq<R>, key: R -> string, deps: R -> seq<string>, order: seq<string>)
    requires Distinct(nodes)
    requires index.Keys == Registry(resources, key).Keys
    requires forall k :: k in index ==>
      index[k] in nodes && index[k].resource == Registry(resources, key)[k] && key(index[k].resource) == k
    requires forall n :: n in nodes ==> key(n.resource) in index && index[key(n.resource)] == n
    requires forall n :: n in nodes ==> n.parents == Parents(index, deps(n.resource))
    requires DepGraph.AllDeclared(KeyGraph(Registry(resources, key), deps))
    requires DepGraph.TopoOrder(KeyGraph(Registry(resources, key), deps), order)
    ensures Wired(nodes, RankBy(order, key))
  {
    var g := KeyGraph(Registry(resources, key), deps);
    forall n, t | n in nodes && 0 <= t < |n.parents|
      ensures n.parents[t] != null && n.parents[t] in nodes
      ensures RankBy(order, key)(n.parents[t]) < RankBy(order, key)(n)
    {
      var name := key(n.resource);
      ParentsAt(index, deps(n.resource));
      var d := deps(n.resource)[t];
      assert g[name] == deps(n.resource);
      assert d in g[name];
      assert d in index;
      DepGraph.EdgeDescends(g, order, name, d);
    }
  }

  /** Rank a node by the position of its name in `order` (0 for a name not listed). */
  function RankBy<R, E>(order: seq<string>, key: R -> string): ExecNode<R, E> -> nat
  {
    (n: ExecNode<R, E>) => if key(n.resource) in order then DepGraph.IndexOf(order, key(n.resource)) else 0
  }
}
