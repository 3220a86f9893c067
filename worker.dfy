/**
 * The live parts of v2/pkg/worker/worker.go: a registry of named drivers with a default,
 * and `Apply`, which links the document's apps and addons into nodes and runs them with a
 * callback that hands each resource to the driver registered under the resource's name.
 */
module Worker {
  import opened Wrappers
  import opened Exec
  import opened ExecNodes
  import opened ExecV2
  import opened PorterTypes
  import DepGraph
  import DepResolver

  /** The error a driver's `Apply` returns; its text is all the model keeps of it. */
  datatype DriverError = DriverError(message: string)

  /** `types.Driver`, reduced to the one method the live code calls, `Apply(*Resource) error`. */
  datatype Driver = Driver(apply: Resource -> Option<DriverError>)

  /** The errors of the registry operations. */
  datatype WorkerError =
    | DriverExists(name: string)   // driver with name '<name>' already exists
    | NoSuchDriver(name: string)   // attempting to set default driver with name '<name>' that does not exist

  /**
   * The error the apply callback returns: the driver's own error, or, for a resource
   * whose name has no registered driver, the nil-interface call that panics in Go.
   */
  datatype ApplyError =
    | Failed(cause: DriverError)
    | MissingDriver(name: string)

  /**
   * `getExecFunc`: the callback that looks the driver up by the resource's NAME (not its
   * driver field) and returns that driver's error unchanged.
   */
  function GetExecFunc(driverLookupTable: map<string, Driver>): Resource -> Option<ApplyError>
  {
    (resource: Resource) =>
      var name := NameOf(resource);
      if name !in driverLookupTable then Some(MissingDriver(name))
      else match driverLookupTable[name].apply(resource)
        case None => None
        case Some(e) => Some(Failed(e))
  }

  /** The callback succeeds exactly when the driver of that name does, and passes its error on unchanged. */
  lemma ExecFuncAppliesDriver(table: map<string, Driver>, r: Resource)
    requires NameOf(r) in table
    ensures GetExecFunc(table)(r).None? <==> table[NameOf(r)].apply(r).None?
    ensures table[NameOf(r)].apply(r).Some? ==> GetExecFunc(table)(r) == Some(Failed(table[NameOf(r)].apply(r).value))
  {
  }

  /** The callback never reports a resource as missing a driver when its name is registered. */
  lemma ExecFuncMissingOnlyUnregistered(table: map<string, Driver>, r: Resource)
    ensures GetExecFunc(table)(r) == Some(MissingDriver(NameOf(r))) <==> NameOf(r) !in table
  {
  }

  class Worker {
    var driversTable: map<string, Driver>
    var defaultDriver: string

    /** The default is unset or names a registered driver; entries are never removed. */
    ghost predicate Valid()
      reads this
    {
      defaultDriver == "" || defaultDriver in driversTable
    }

    /** `NewWorker`: no drivers and no default. */
    constructor ()
      ensures driversTable == map[] && defaultDriver == ""
      ensures Valid()
    {
      driversTable := map[];
      defaultDriver := "";
    }

    /** `RegisterDriver`: add a driver under a new name; an existing name is refused and nothing changes. */
    method RegisterDriver(name: string, driver: Driver) returns (err: Option<WorkerError>)
      modifies this`driversTable
      ensures name in old(driversTable) ==> err == Some(DriverExists(name)) && driversTable == old(driversTable)
      ensures name !in old(driversTable) ==> err == None && driversTable == old(driversTable)[name := driver]
      ensures old(Valid()) ==> Valid()
    {
      if name in driversTable {
        return Some(DriverExists(name));
      }
      driversTable := driversTable[name := driver];
      return None;
    }

    /** `SetDefaultDriver`: only a registered name can become the default; otherwise nothing changes. */
    method SetDefaultDriver(name: string) returns (err: Option<WorkerError>)
      modifies this`defaultDriver
      ensures name !in driversTable ==> err == Some(NoSuchDriver(name)) && defaultDriver == old(defaultDriver)
      ensures name in driversTable ==> err == None && defaultDriver == name
      ensures old(Valid()) ==> Valid()
    {
      if name !in driversTable {
        return Some(NoSuchDriver(name));
      }
      defaultDriver := name;
      return None;
    }

    /**
     * `Apply`: link the apps and addons into nodes and execute them with the callback of
     * `getExecFunc`. `GetExecNodes` never fails, so `Apply` always returns nil, whatever
     * the nodes finished with. The ghost results are the nodes, the round of each node and
     * the resources handed to drivers, in order.
     *
     * The Go code runs no validation here; the loop of `Execute` ends only on a graph the
     * dependency resolver accepts, which is what the preconditions ask: every dependency
     * declared and a topological order of the name graph (`order`).
     */
    method Apply(parsed: PorterYAML, describe: Resource -> string, ghost order: seq<string>)
      returns (err: Option<WorkerError>, ghost nodes: seq<ExecNode<Resource, ApplyError>>,
               ghost waveOf: map<ExecNode<Resource, ApplyError>, nat>, ghost calls: seq<ExecNode<Resource, ApplyError>>)
      requires DepGraph.AllDeclared(DepResolver.GraphOf(Resources(parsed)))
      requires DepGraph.TopoOrder(DepResolver.GraphOf(Resources(parsed)), order)
      ensures err == None
      ensures |nodes| == |Registry(Resources(parsed), NameOf)|
      ensures forall n :: n in nodes ==>
        NameOf(n.resource) in Registry(Resources(parsed), NameOf) &&
        Registry(Resources(parsed), NameOf)[NameOf(n.resource)] == n.resource
      ensures Done(nodes, GetExecFunc(driversTable), describe, waveOf, calls)
    {
      var execFunc := GetExecFunc(driversTable);
      nodes, waveOf, calls := ExecuteDocument(parsed, execFunc, describe, order);
      return None, nodes, waveOf, calls;
    }
  }
}
