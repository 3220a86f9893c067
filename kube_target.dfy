/** `GetTarget` of pkg/drivers/kubernetes/target.go: the cluster and namespace a resource goes to. */
module KubeTarget {
  import opened Wrappers
  import opened KubeValues

  const TargetKindLocal: string := "local"

  datatype TargetLocal = TargetLocal(kubeconfigPath: string, kubeconfigContext: string)

  /** `Target`: kind and namespace, and the kubeconfig settings, which only kind `local` has. */
  datatype Target = Target(targetLocal: Option<TargetLocal>, kind: string, namespace: string)

  datatype TargetError = KindNotSet   // target parameter "kind" must be set

  /**
   * The kind is required (a string, not empty); a missing, non-string or empty namespace is
   * `default`; kind `local` reads the optional kubeconfig path and context, each `""` unless
   * given as a string.
   */
  function GetTarget(genericTarget: map<string, Value>): (r: Result<Target, TargetError>)
    ensures r.Failure? <==> StringOrEmpty(genericTarget, "kind") == ""
    ensures r.Success? ==> && r.value.kind == StringOrEmpty(genericTarget, "kind")
                           && r.value.kind != "" && r.value.namespace != ""
    ensures r.Success? && StringOrEmpty(genericTarget, "namespace") != "" ==>
      r.value.namespace == StringOrEmpty(genericTarget, "namespace")
    ensures r.Success? && StringOrEmpty(genericTarget, "namespace") == "" ==> r.value.namespace == "default"
    ensures r.Success? ==> (r.value.targetLocal.Some? <==> r.value.kind == TargetKindLocal)
    ensures r.Success? && r.value.targetLocal.Some? ==>
      r.value.targetLocal.value == TargetLocal(StringOrEmpty(genericTarget, "kubeconfig_path"),
                                               StringOrEmpty(genericTarget, "kubeconfig_context"))
  {
    var kind := StringOrEmpty(genericTarget, "kind");
    if kind == "" then Failure(KindNotSet)
    else
      var ns := StringOrEmpty(genericTarget, "namespace");
      var ns := if ns == "" then "default" else ns;
      var local := if kind == TargetKindLocal
        then Some(TargetLocal(StringOrEmpty(genericTarget, "kubeconfig_path"),
                              StringOrEmpty(genericTarget, "kubeconfig_context")))
        else None;
      Success(Target(local, kind, ns))
  }
}
