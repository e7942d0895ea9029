/**
 The view of a Netica Bayesian network that the joint-distribution engine uses.

 The engine only ever asks the network three things: the output nodes, the state
 titles of a node, and the beliefs of a node after retracting every finding and
 entering a given list of findings. Because every query retracts all findings
 first, the answer depends only on the findings entered for that query, so the
 inference engine is an ordinary (uninterpreted) function of them here.
 */
module Network {

  /** Nodes are addressed by their names. */
  type Node = string

  /** How a finding names the state it fixes: by symbolic name or by ordinal position ("rank"). */
  datatype StateRef = ByName(name: string) | ByRank(rank: nat)

  /** One piece of evidence: `node` is fixed to `state`. */
  datatype Finding = Finding(node: Node, state: StateRef)

  /**
   A compiled network.
   - `outputs`: the names of the nodes in the nodeset OUT, in network order;
   - `titles`: the state titles of a node, in state order;
   - `numeric`: the number a state title stands for (`float(title)`);
   - `belief`: `belief(fs, node, j)` is the j-th belief of `node` once all
     findings are retracted and the findings `fs` are entered, in order.
   */
  datatype Net = Net(
    outputs: seq<Node>,
    titles: Node -> seq<string>,
    numeric: string -> real,
    belief: (seq<Finding>, Node, nat) -> real)

  /** Number of states of a node. */
  function NumStates(net: Net, node: Node): nat
  {
    |net.titles(node)|
  }

  /** The numeric state titles of a node, in state order. */
  function Values(net: Net, node: Node): (v: seq<real>)
    ensures |v| == NumStates(net, node)
  {
    seq(NumStates(net, node), j requires 0 <= j < NumStates(net, node) => net.numeric(net.titles(node)[j]))
  }

  /**
   The belief vector of `node` under exactly the findings `fs`: one value per
   state of the node, as read from the engine's belief array.
   */
  function Beliefs(net: Net, fs: seq<Finding>, node: Node): (p: seq<real>)
    ensures |p| == NumStates(net, node)
  {
    seq(NumStates(net, node), (j: nat) => net.belief(fs, node, j))
  }
}
