/**
 * v2/internal/exec/exec.go over the v2 document types. Apps come before addons, names and
 * dependency names are read through `GetValue` (the empty string when missing), and a
 * failed parent is reported by formatting its `Name` field, a `*YAMLNodeMetadata[string]`
 * pointer; what that prints is left to the caller as `describe`.
 */
module ExecV2 {
  import opened Wrappers
  import opened Exec
  import opened ExecNodes
  import opened PorterTypes
  import DepGraph
  import DepResolver

  /** `parsed.Apps.GetValue()` followed by `parsed.Addons.GetValue()`. */
  function Resources(parsed: PorterYAML): (rs: seq<Resource>)
    ensures |rs| == |parsed.apps.GetValue([])| + |parsed.addons.GetValue([])|
    ensures forall i :: 0 <= i < |parsed.apps.GetValue([])| ==> rs[i] == parsed.apps.GetValue([])[i]
    ensures forall i :: 0 <= i < |parsed.addons.GetValue([])| ==>
      rs[|parsed.apps.GetValue([])| + i] == parsed.addons.GetValue([])[i]
  {
    parsed.apps.GetValue([]) + parsed.addons.GetValue([])
  }

  /**
   * `GetExecNodes`: one new node per distinct name among the apps and addons, holding the
   * last resource of that name (so an addon replaces an app of the same name), its parents
   * looked up by `DependsOn` name in declaration order. The error result of the Go function
   * is always nil and is not modelled.
   */
  method GetExecNodes<E>(parsed: PorterYAML) returns (nodes: seq<ExecNode<Resource, E>>, ghost index: map<string, ExecNode<Resource, E>>)
    ensures Distinct(nodes) && |nodes| == |index|
    ensures forall n :: n in nodes ==> fresh(n) && !n.isExecStarted && !n.isExecFinished && n.execError == None
    ensures index.Keys == Registry(Resources(parsed), NameOf).Keys
    ensures forall k :: k in index ==>
      index[k] in nodes && index[k].resource == Registry(Resources(parsed), NameOf)[k] && NameOf(index[k].resource) == k
    ensures forall n :: n in nodes ==> NameOf(n.resource) in index && index[NameOf(n.resource)] == n
    ensures forall n :: n in nodes ==> n.parents == Parents(index, DepNames(n.resource))
  {
    var resources := parsed.apps.GetValue([]) + parsed.addons.GetValue([]);
    nodes, index := LinkNodes(resources, NameOf, DepNames);
  }

  /**
   * The graph the dependency resolver builds is the name graph of the nodes: both keep
   * the last resource of each name.
   */
  lemma {:induction false} ResolverGraphIsNodeGraph(rs: seq<Resource>)
    ensures DepResolver.GraphOf(rs) == KeyGraph(Registry(rs, NameOf), DepNames)
  {
    if rs != [] {
      var front := rs[..|rs| - 1];
      var last := rs[|rs| - 1];
      ResolverGraphIsNodeGraph(front);
      assert Registry(rs, NameOf) == Registry(front, NameOf)[NameOf(last) := last];
      assert KeyGraph(Registry(rs, NameOf), DepNames) == KeyGraph(Registry(front, NameOf), DepNames)[NameOf(last) := DepNames(last)];
    }
  }

  /**
   * A document the resolver accepts (every dependency declared, a topological order of
   * the graph) links into nodes `Execute` accepts, ranked by that order.
   */
  lemma ResolvedIsWired<E>(parsed: PorterYAML, nodes: seq<ExecNode<Resource, E>>, index: map<string, ExecNode<Resource, E>>,
                           order: seq<string>)
    requires Distinct(nodes)
    requires index.Keys == Registry(Resources(parsed), NameOf).Keys
    requires forall k :: k in index ==>
      index[k] in nodes && index[k].resource == Registry(Resources(parsed), NameOf)[k] && NameOf(index[k].resource) == k
    requires forall n :: n in nodes ==> NameOf(n.resource) in index && index[NameOf(n.resource)] == n
    requires forall n :: n in nodes ==> n.parents == Parents(index, DepNames(n.resource))
    requires DepGraph.AllDeclared(DepResolver.GraphOf(Resources(parsed)))
    requires DepGraph.TopoOrder(DepResolver.GraphOf(Resources(parsed)), order)
    ensures Wired(nodes, RankBy(order, NameOf))
  {
    ResolverGraphIsNodeGraph(Resources(parsed));
    LinkedWired(nodes, index, Resources(parsed), NameOf, DepNames, order);
  }

  /**
   * `GetExecNodes` followed by `Execute`, as a caller runs a document the resolver has
   * accepted; the node list is returned as a ghost result.
   */
  method ExecuteDocument<E>(parsed: PorterYAML, execFunc: Resource -> Option<E>, describe: Resource -> string,
                            ghost order: seq<string>)
    returns (ghost nodes: seq<ExecNode<Resource, E>>, ghost waveOf: map<ExecNode<Resource, E>, nat>,
             ghost calls: seq<ExecNode<Resource, E>>)
    requires DepGraph.AllDeclared(DepResolver.GraphOf(Resources(parsed)))
    requires DepGraph.TopoOrder(DepResolver.GraphOf(Resources(parsed)), order)
    ensures |nodes| == |Registry(Resources(parsed), NameOf)|
    ensures forall n :: n in nodes ==>
      NameOf(n.resource) in Registry(Resources(parsed), NameOf) &&
      Registry(Resources(parsed), NameOf)[NameOf(n.resource)] == n.resource
    ensures Done(nodes, execFunc, describe, waveOf, calls)
  {
    var ns: seq<ExecNode<Resource, E>>;
    ghost var index;
    ns, index := GetExecNodes(parsed);
    ResolvedIsWired(parsed, ns, index, order);
    waveOf, calls := Execute(ns, execFunc, describe, RankBy(order, NameOf));
    nodes := ns;
  }
}
