/**
 * `YAMLNodeMetadata[T]` from v2/pkg/types/yaml_metadata.go: a decoded value together with
 * the line and column it was found at, each held behind its own pointer.
 */
module YamlMetadata {
  import opened Wrappers
  import opened Yaml

  /**
   * A `*YAMLNodeMetadata[T]` as its nil-safe accessors see it: `Nil` is the nil pointer and
   * `Ref` carries the three pointer fields of the struct (`None` for a nil field).
   */
  datatype MetadataRef<T> = Nil | Ref(value: Option<T>, line: Option<int>, column: Option<int>)
  {
    /** `GetValue`: the stored value, or the zero value of `T` (supplied as `zero`). */
    function GetValue(zero: T): (r: T)
      ensures Nil? || value.None? ==> r == zero
      ensures Ref? && value.Some? ==> r == value.value
    {
      if Ref? && value.Some? then value.value else zero
    }

    /** `GetLine`: the recorded line, or -1 when none is recorded. */
    function GetLine(): (r: int)
      ensures Nil? || line.None? ==> r == -1
      ensures Ref? && line.Some? ==> r == line.value
    {
      if Ref? && line.Some? then line.value else -1
    }

    /** `GetColumn`: the recorded column, or -1 when none is recorded. */
    function GetColumn(): (r: int)
      ensures Nil? || column.None? ==> r == -1
      ensures Ref? && column.Some? ==> r == column.value
    {
      if Ref? && column.Some? then column.value else -1
    }
  }

  /** The struct a `*YAMLNodeMetadata[T]` points to, which `UnmarshalYAML` fills in place. */
  class YAMLNodeMetadata<T> {
    var value: Option<T>
    var line: Option<int>
    var column: Option<int>

    /** `new(YAMLNodeMetadata[T])`: every field is nil. */
    constructor ()
      ensures Snapshot() == Ref(None, None, None)
    {
      value, line, column := None, None, None;
    }

    /** The pointer to this struct, as the accessors read it. */
    function Snapshot(): MetadataRef<T>
      reads this
    {
      Ref(value, line, column)
    }

    /**
     * `UnmarshalYAML`: the value is allocated and decoded into first; the position is
     * recorded only when decoding succeeds, so a failed decode keeps the old position.
     */
    method UnmarshalYAML(node: Node, decoded: Decoded<T>) returns (err: Option<DecodeError>)
      modifies this
      ensures err == decoded.err
      ensures value == Some(decoded.value)
      ensures err.None? ==> line == Some(node.line) && column == Some(node.column)
      ensures err.Some? ==> line == old(line) && column == old(column)
      ensures forall zero: T :: Snapshot().GetValue(zero) == decoded.value
      ensures err.None? ==> Snapshot().GetLine() == node.line && Snapshot().GetColumn() == node.column
      ensures err.Some? ==> Snapshot().GetLine() == old(Snapshot().GetLine()) &&
                            Snapshot().GetColumn() == old(Snapshot().GetColumn())
    {
      value := Some(decoded.value);
      err := decoded.err;
      if err.Some? {
        return;
      }
      line := Some(node.line);
      column := Some(node.column);
    }
  }
}
