/** `GetSource` of pkg/drivers/kubernetes/source.go: where the manifests of a resource come from. */
module KubeSource {
  import opened Wrappers
  import opened KubeValues

  const SourceKindNone: string := "none"
  const SourceKindLocal: string := "local"

  datatype SourceLocal = SourceLocal(path: string)

  /** `Source`: the kind, and the local settings, which only kind `local` has. */
  datatype Source = Source(sourceLocal: Option<SourceLocal>, kind: string)

  datatype SourceError =
    | PathNotSet      // source parameter "path" must be set when using "local" kind
    | PathNotString   // source parameter "path" is not of type "string"

  /**
   * A missing, non-string or empty kind is `none`; kind `local` needs a string `path`; any
   * other kind is accepted as it is, without local settings.
   */
  function GetSource(genericSource: map<string, Value>): (r: Result<Source, SourceError>)
    ensures StringOrEmpty(genericSource, "kind") == "" ==> r == Success(Source(None, SourceKindNone))
    ensures StringOrEmpty(genericSource, "kind") == SourceKindLocal ==>
      && ("path" !in genericSource ==> r == Failure(PathNotSet))
      && ("path" in genericSource && !genericSource["path"].Str? ==> r == Failure(PathNotString))
      && (forall p :: StringField(genericSource, "path") == Some(p) ==>
            r == Success(Source(Some(SourceLocal(p)), SourceKindLocal)))
    ensures StringOrEmpty(genericSource, "kind") !in {"", SourceKindLocal} ==>
      r == Success(Source(None, StringOrEmpty(genericSource, "kind")))
    ensures r.Success? ==> r.value.kind != "" && (r.value.sourceLocal.Some? <==> r.value.kind == SourceKindLocal)
  {
    var kind := StringOrEmpty(genericSource, "kind");
    var kind := if kind == "" then SourceKindNone else kind;
    if kind == SourceKindLocal then
      if "path" !in genericSource then Failure(PathNotSet)
      else match genericSource["path"]
        case Str(p) => Success(Source(Some(SourceLocal(p)), kind))
        case _ => Failure(PathNotString)
    else Success(Source(None, kind))
  }
}
