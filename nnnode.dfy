/** A node record of a NEAT genome (src/nnnode.js, and the plain node objects of src/nn.js). */
module NNNode {
  import opened Wrappers

  /** Node types are the integer codes of `NodeTypes` in src/nn.js; any other integer is an unknown type. */
  type NodeType = int

  const Input: NodeType := 0
  const Hidden: NodeType := 1
  const Output: NodeType := 2

  /** A node: its id within one genome, its type code and an optional name (absent for hidden neurons). */
  datatype Node = Node(id: int, nodeType: NodeType, name: Option<string>)

  /** The node `new NNNode(id, type, name)` builds: every argument stored as given. */
  function NewNode(id: int, nodeType: NodeType, name: Option<string>): (n: Node)
    ensures n.id == id && n.nodeType == nodeType && n.name == name
  {
    Node(id, nodeType, name)
  }

  /** `copy()`: a separate record with the same id, type and name. */
  function CopyNode(n: Node): (c: Node)
    ensures c == n
  {
    NewNode(n.id, n.nodeType, n.name)
  }
}
