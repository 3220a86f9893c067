/**
 * `YAMLNode[T]` from v2/pkg/types/yaml_node.go: a decoded value together with the raw
 * `yaml.Node` it was decoded from. This file declares its own `YAMLNodeMetadata`, a plain
 * position, distinct from the generic wrapper of the same name in yaml_metadata.go.
 */
module YamlNode {
  import opened Wrappers
  import opened Yaml

  /** The position struct `YAMLNodeMetadata{Line, Column}` of yaml_node.go. */
  datatype YAMLNodeMetadata = YAMLNodeMetadata(line: int, column: int)

  /** A `*YAMLNode[T]` as its nil-safe accessors see it (`Nil` is the nil pointer). */
  datatype NodeRef<T> = Nil | Ref(internalNode: Option<Node>, value: Option<T>)
  {
    /** `GetValue`: the stored value, or the zero value of `T` (supplied as `zero`). */
    function GetValue(zero: T): (r: T)
      ensures Nil? || value.None? ==> r == zero
      ensures Ref? && value.Some? ==> r == value.value
    {
      if Ref? && value.Some? then value.value else zero
    }

    /** True when there is a receiver and it holds a node. */
    predicate HasNode() {
      Ref? && internalNode.Some?
    }

    /** `GetYAMLNodeMetadata`: nil without a node, otherwise a fresh copy of its position. */
    function GetYAMLNodeMetadata(): (r: Option<YAMLNodeMetadata>)
      ensures r.None? <==> !HasNode()
      ensures r.Some? ==> r.value == YAMLNodeMetadata(internalNode.value.line, internalNode.value.column)
    {
      if HasNode() then Some(YAMLNodeMetadata(internalNode.value.line, internalNode.value.column)) else None
    }

    /** `GetLine`: the node's line, or -1 without a node. */
    function GetLine(): (r: int)
      ensures !HasNode() ==> r == -1
      ensures HasNode() ==> r == internalNode.value.line
    {
      if HasNode() then internalNode.value.line else -1
    }

    /** `GetColumn`: the node's column, or -1 without a node. */
    function GetColumn(): (r: int)
      ensures !HasNode() ==> r == -1
      ensures HasNode() ==> r == internalNode.value.column
    {
      if HasNode() then internalNode.value.column else -1
    }

    /** `GetRawYAMLNode`: the node itself, or nil without one. */
    function GetRawYAMLNode(): (r: Option<Node>)
      ensures !HasNode() ==> r == None
      ensures HasNode() ==> r == internalNode
    {
      if HasNode() then internalNode else None
    }
  }

  /** The position copy agrees with the line and column accessors whenever it exists. */
  lemma MetadataMatchesLineColumn<T>(y: NodeRef<T>)
    ensures y.GetYAMLNodeMetadata().Some? ==>
      y.GetYAMLNodeMetadata().value == YAMLNodeMetadata(y.GetLine(), y.GetColumn())
    ensures y.GetYAMLNodeMetadata().None? ==> y.GetLine() == -1 && y.GetColumn() == -1 && y.GetRawYAMLNode().None?
  {
  }

  /** The struct a `*YAMLNode[T]` points to, which `UnmarshalYAML` fills in place. */
  class YAMLNode<T> {
    var internalNode: Option<Node>
    var value: Option<T>

    /** `new(YAMLNode[T])`: both fields nil. */
    constructor ()
      ensures Snapshot() == Ref(None, None)
    {
      internalNode, value := None, None;
    }

    /** The pointer to this struct, as the accessors read it. */
    function Snapshot(): NodeRef<T>
      reads this
    {
      Ref(internalNode, value)
    }
  }

  /** The errors `YAMLNode.UnmarshalYAML` returns. */
  datatype UnmarshalError = NilReceiver | DecodeFailed(cause: DecodeError)

  /**
   * `UnmarshalYAML` on a possibly nil receiver: nil fails; otherwise the node is recorded
   * before decoding, so it is kept (and the value allocated) even when decoding fails.
   */
  method UnmarshalYAML<T>(y: YAMLNode?<T>, node: Node, decoded: Decoded<T>) returns (err: Option<UnmarshalError>)
    modifies y
    ensures y == null ==> err == Some(NilReceiver)
    ensures y != null ==> y.internalNode == Some(node) && y.value == Some(decoded.value)
    ensures y != null && decoded.err.Some? ==> err == Some(DecodeFailed(decoded.err.value))
    ensures y != null && decoded.err.None? ==> err == None
  {
    if y == null {
      return Some(NilReceiver);
    }
    y.value := Some(decoded.value);
    y.internalNode := Some(node);
    if decoded.err.Some? {
      return Some(DecodeFailed(decoded.err.value));
    }
    return None;
  }
}
