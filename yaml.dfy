/** The boundary to gopkg.in/yaml.v3 that the two YAML wrappers use. */
module Yaml {
  import opened Wrappers

  /** A `yaml.Node` as the wrappers read it: only its position in the document. */
  datatype Node = Node(line: int, column: int)

  /** An error returned by `yaml.Node.Decode`. */
  datatype DecodeError = DecodeError(message: string)

  /**
   * The outcome of `node.Decode(y.value)`, an abstract input of the model: the value the
   * decoder left in `*y.value` (possibly partial) and the error it returned.
   */
  datatype Decoded<T> = Decoded(value: T, err: Option<DecodeError>)
}
