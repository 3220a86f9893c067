/**
 * The checks of pkg/drivers/kubernetes/agent.go that run before the cluster is contacted:
 * reading an object's `metadata.name`, and the `apiVersion` and `kind` fields that choose the
 * API resource. The REST mapper, and the Get/Create/Update calls of `Apply`, are outside
 * the model.
 */
module KubeAgent {
  import opened Wrappers
  import opened KubeValues

  datatype NameError =
    | MetadataNotSet      // metadata field must be set
    | MetadataNotMap      // metadata field could not be converted to a map[string]interface{}
    | NameNotSet          // name field must be set
    | NameNotString       // metadata.name field is not a string

  /** `getObjectName`: the string at `metadata.name`, or which step of reaching it failed. */
  function GetObjectName(obj: map<string, Value>): (r: Result<string, NameError>)
    ensures "metadata" !in obj ==> r == Failure(MetadataNotSet)
    ensures "metadata" in obj && !obj["metadata"].Obj? ==> r == Failure(MetadataNotMap)
    ensures "metadata" in obj && obj["metadata"].Obj? ==>
      var metadata := obj["metadata"].fields;
      && ("name" !in metadata ==> r == Failure(NameNotSet))
      && ("name" in metadata && !metadata["name"].Str? ==> r == Failure(NameNotString))
    ensures r.Success? <==> "metadata" in obj && obj["metadata"].Obj? && StringField(obj["metadata"].fields, "name").Some?
    ensures r.Success? ==> StringField(obj["metadata"].fields, "name") == Some(r.value)
  {
    if "metadata" !in obj then Failure(MetadataNotSet)
    else match obj["metadata"]
      case Obj(metadata) =>
        if "name" !in metadata then Failure(NameNotSet)
        else (match metadata["name"]
          case Str(name) => Success(name)
          case _ => Failure(NameNotString))
      case _ => Failure(MetadataNotMap)
  }

  datatype ResourceError<M> =
    | APIVersionNotSet      // apiVersion field must be set
    | APIVersionNotString   // apiVersion field is not a string
    | KindNotSet            // kind field must be set
    | KindNotString         // kind field is not a string
    | MappingFailed(cause: M)   // the REST mapper could not be built or could not map the kind

  /**
   * `getGroupVersionResource`: `apiVersion`, then `kind`, must be present strings; only then
   * is `mapping` (the REST mapper on the group, version and kind) consulted.
   */
  function GetGroupVersionResource<G, M>(obj: map<string, Value>, mapping: (string, string) -> Result<G, M>)
    : (r: Result<G, ResourceError<M>>)
    ensures "apiVersion" !in obj ==> r == Failure(APIVersionNotSet)
    ensures "apiVersion" in obj && !obj["apiVersion"].Str? ==> r == Failure(APIVersionNotString)
    ensures StringField(obj, "apiVersion").Some? ==>
      && ("kind" !in obj ==> r == Failure(KindNotSet))
      && ("kind" in obj && !obj["kind"].Str? ==> r == Failure(KindNotString))
    ensures (r.Success? || r.error.MappingFailed?) <==>
      StringField(obj, "apiVersion").Some? && StringField(obj, "kind").Some?
    ensures r.Success? || r.error.MappingFailed? ==>
      match mapping(obj["apiVersion"].s, obj["kind"].s)
      case Success(g) => r == Success(g)
      case Failure(m) => r == Failure(MappingFailed(m))
  {
    if "apiVersion" !in obj then Failure(APIVersionNotSet)
    else if !obj["apiVersion"].Str? then Failure(APIVersionNotString)
    else if "kind" !in obj then Failure(KindNotSet)
    else if !obj["kind"].Str? then Failure(KindNotString)
    else match mapping(obj["apiVersion"].s, obj["kind"].s)
      case Success(g) => Success(g)
      case Failure(m) => Failure(MappingFailed(m))
  }
}
