/**
 * The v2 porter.yaml document (v2/pkg/types/types.go) as the validator, the dependency
 * resolver and the executor read it. Every field is decoded through one of the two YAML
 * wrappers; the model keeps only the fields those components read.
 */
module PorterTypes {
  import opened YamlMetadata
  import opened YamlNode

  /** An app or addon: its name and the names it depends on. */
  datatype Resource = Resource(name: MetadataRef<string>, dependsOn: seq<MetadataRef<string>>)

  /** A declared variable; each field keeps the YAML node it came from. */
  datatype Variable = Variable(
    name: NodeRef<string>,
    value: NodeRef<string>,
    once: NodeRef<bool>,
    random: NodeRef<bool>)

  /** A build; only its `method` field is ever located by the validator. */
  datatype Build = Build(buildMethod: MetadataRef<string>)

  /** The document. List-valued fields are wrapped so that their own position is known. */
  datatype PorterYAML = PorterYAML(
    version: MetadataRef<string>,
    variables: NodeRef<seq<Variable>>,
    builds: NodeRef<seq<Build>>,
    apps: NodeRef<seq<Resource>>,
    addons: NodeRef<seq<Resource>>)

  /** `resource.Name.GetValue()`: the empty string when the name is missing. */
  function NameOf(r: Resource): string {
    r.name.GetValue("")
  }

  /** The values of `resource.DependsOn`, in declaration order. */
  function DepNames(r: Resource): (ds: seq<string>)
    ensures |ds| == |r.dependsOn|
    ensures forall k :: 0 <= k < |ds| ==> ds[k] == r.dependsOn[k].GetValue("")
  {
    seq(|r.dependsOn|, k requires 0 <= k < |r.dependsOn| => r.dependsOn[k].GetValue(""))
  }

  /** The names of a list of resources, position by position. */
  function Names(rs: seq<Resource>): (ns: seq<string>)
    ensures |ns| == |rs|
    ensures forall i :: 0 <= i < |rs| ==> ns[i] == NameOf(rs[i])
  {
    seq(|rs|, i requires 0 <= i < |rs| => NameOf(rs[i]))
  }
}
