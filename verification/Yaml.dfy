/** Abstract YAML documents. Reading and writing the text form is not part of the
    model: loading what was dumped gives the same node. */
module Yaml {
  import opened Options

  datatype Node =
    | Null
    | Scalar(text: string)
    | Sequence(items: seq<Node>)
    | Mapping(entries: seq<Entry>)  // in document order

  /** A key is its scalar text, which is empty when it is not a scalar. */
  datatype Entry = Entry(key: string, value: Node)

  /** What indexing a node up to its size yields: nothing for Null and for scalars. */
  function Items(node: Node): Option<seq<Node>> {
    match node
    case Sequence(items) => Some(items)
    case Mapping(entries) => if entries == [] then Some([]) else None
    case _ => Some([])
  }

  /** What iterating over a node as a map yields. */
  function Entries(node: Node): Option<seq<Entry>> {
    match node
    case Mapping(entries) => Some(entries)
    case Sequence(items) => if items == [] then Some([]) else None
    case _ => Some([])
  }
}
