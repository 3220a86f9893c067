/**
 * internal/exec/exec.go over its own resource type. The package that declares
 * `ResourceGroup` and `Resource` (pkg/models) is not part of this model; the two fields the
 * executor reads, `Name` and `Dependencies`, are taken from how exec.go uses them.
 */
module ExecV1 {
  import opened Wrappers
  import opened Exec
  import opened ExecNodes

  /** A `*models.Resource` as the executor reads it. */
  datatype Resource = Resource(name: string, dependencies: seq<string>)

  /** A `*models.ResourceGroup`: the resources, in declaration order. */
  datatype ResourceGroup = ResourceGroup(resources: seq<Resource>)

  function Name(r: Resource): string { r.name }
  function Dependencies(r: Resource): seq<string> { r.dependencies }

  /**
   * `GetExecNodes`: one new node per distinct resource name, holding the last resource of
   * that name, its parents looked up by dependency name in declaration order. The error
   * result of the Go function is always nil and is not modelled.
   */
  method GetExecNodes<E>(group: ResourceGroup) returns (nodes: seq<ExecNode<Resource, E>>, ghost index: map<string, ExecNode<Resource, E>>)
    ensures Distinct(nodes) && |nodes| == |index|
    ensures forall n :: n in nodes ==> fresh(n) && !n.isExecStarted && !n.isExecFinished && n.execError == None
    ensures index.Keys == Registry(group.resources, Name).Keys
    ensures forall k :: k in index ==>
      index[k] in nodes && index[k].resource == Registry(group.resources, Name)[k] && index[k].resource.name == k
    ensures forall n :: n in nodes ==> n.resource.name in index && index[n.resource.name] == n
    ensures forall n :: n in nodes ==> n.parents == Parents(index, n.resource.dependencies)
  {
    nodes, index := LinkNodes(group.resources, Name, Dependencies);
  }

  /**
   * `Execute` of internal/exec/exec.go: a failed parent is reported by its resource name,
   * `dependency '<name>' failed`.
   */
  method Execute<E>(nodes: seq<ExecNode<Resource, E>>, execFunc: Resource -> Option<E>, ghost rank: ExecNode<Resource, E> -> nat)
    returns (ghost waveOf: map<ExecNode<Resource, E>, nat>, ghost calls: seq<ExecNode<Resource, E>>)
    requires Wired(nodes, rank)
    requires forall n :: n in nodes ==> !n.isExecStarted && !n.isExecFinished && n.execError == None
    modifies (set n | n in nodes)`isExecStarted, (set n | n in nodes)`isExecFinished, (set n | n in nodes)`execError
    ensures Done(nodes, execFunc, Name, waveOf, calls)
  {
    waveOf, calls := Exec.Execute(nodes, execFunc, Name, rank);
  }
}
