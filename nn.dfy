/**
 * The NEAT genome builder of src/nn.js: a network starts empty, input and output nodes are
 * added one at a time, and every added node is wired to all nodes of the opposite type with
 * connections stamped by a shared, increasing innovation counter.
 *
 * The abstract value of a network is the datatype Genome; the pure function WithInitialNode
 * says what `addInitialNode` does to it, the predicate Valid states the invariant every
 * network built this way keeps, and the class NN performs the same steps in place.
 */
module NeuralNet {
  import opened Wrappers
  import opened NNNode
  import opened NNConnection

  /** The two exceptions `addInitialNode` throws. */
  datatype NodeError = HiddenNodeNotAllowed | InvalidNodeType

  /** The four arrays of a network: inputs, outputs, all nodes in insertion order, connections. */
  datatype Genome = Genome(inputs: seq<Node>, outputs: seq<Node>, nodes: seq<Node>, connections: seq<Connection>)

  function EmptyGenome(): Genome
  {
    Genome([], [], [], [])
  }

  /** The nodes of `ns` whose type is `t`, in insertion order. */
  function OfType(ns: seq<Node>, t: NodeType): seq<Node>
  {
    if ns == [] then []
    else OfType(ns[..|ns| - 1], t) + (if ns[|ns| - 1].nodeType == t then [ns[|ns| - 1]] else [])
  }

  /** The connections from a new input `id` to each output of `outs`, innovations numbered from `next`. */
  function FanOut(id: int, outs: seq<Node>, next: int): seq<Connection>
  {
    seq(|outs|, k requires 0 <= k < |outs| => Connection(id, outs[k].id, 0.0, true, next + k))
  }

  /** The connections from each input of `ins` to a new output `id`, innovations numbered from `next`. */
  function FanIn(ins: seq<Node>, id: int, next: int): seq<Connection>
  {
    seq(|ins|, k requires 0 <= k < |ins| => Connection(ins[k].id, id, 0.0, true, next + k))
  }

  /** The network after adding input node `name` to `g` and wiring it, with the counter advanced. */
  function AddInput(g: Genome, next: int, name: Option<string>): (Genome, int)
  {
    var n := Node(|g.nodes|, Input, name);
    var added := FanOut(n.id, g.outputs, next);
    (Genome(g.inputs + [n], g.outputs, g.nodes + [n], g.connections + added), next + |added|)
  }

  /** The network after adding output node `name` to `g` and wiring it, with the counter advanced. */
  function AddOutput(g: Genome, next: int, name: Option<string>): (Genome, int)
  {
    var n := Node(|g.nodes|, Output, name);
    var added := FanIn(g.inputs, n.id, next);
    (Genome(g.inputs, g.outputs + [n], g.nodes + [n], g.connections + added), next + |added|)
  }

  /**
   * `addInitialNode(t, name)` on a network `g` whose shared counter stands at `next`:
   * the new network and the new counter, or the exception thrown (nothing changes then).
   */
  function WithInitialNode(g: Genome, next: int, t: NodeType, name: Option<string>): (r: Result<(Genome, int), NodeError>)
    ensures r.Failure? <==> t != Input && t != Output
    ensures t == Hidden ==> r == Failure(HiddenNodeNotAllowed)
    ensures t != Input && t != Hidden && t != Output ==> r == Failure(InvalidNodeType)
    ensures r.Success? ==>
      var (g', next') := r.value;
      && g'.nodes == g.nodes + [Node(|g.nodes|, t, name)]
      && |g'.connections| == |g.connections| + (if t == Input then |g.outputs| else |g.inputs|)
      && g'.connections[..|g.connections|] == g.connections
      && next' == next + |g'.connections| - |g.connections|
      && (forall k :: |g.connections| <= k < |g'.connections| ==>
            g'.connections[k].weight == 0.0 && g'.connections[k].enabled &&
            g'.connections[k].innovationNum == next + k - |g.connections|)
    ensures r.Success? && t == Input ==>
      var g' := r.value.0;
      && g'.inputs == g.inputs + [Node(|g.nodes|, Input, name)] && g'.outputs == g.outputs
      && (forall k :: 0 <= k < |g.outputs| ==>
            g'.connections[|g.connections| + k].input == |g.nodes| &&
            g'.connections[|g.connections| + k].output == g.outputs[k].id)
    ensures r.Success? && t == Output ==>
      var g' := r.value.0;
      && g'.inputs == g.inputs && g'.outputs == g.outputs + [Node(|g.nodes|, Output, name)]
      && (forall k :: 0 <= k < |g.inputs| ==>
            g'.connections[|g.connections| + k].input == g.inputs[k].id &&
            g'.connections[|g.connections| + k].output == |g.nodes|)
  {
    if t == Hidden then Failure(HiddenNodeNotAllowed)
    else if t != Input && t != Output then Failure(InvalidNodeType)
    else
      var s := if t == Input then AddInput(g, next, name) else AddOutput(g, next, name);
      assert s.0.connections[..|g.connections|] == g.connections;
      Success(s)
  }

  /** `addInitialNode` applied to each request in turn, stopping at the first exception. */
  function WithInitialNodes(g: Genome, next: int, requests: seq<(NodeType, Option<string>)>): (r: Result<(Genome, int), NodeError>)
    ensures r.Success? <==> forall k :: 0 <= k < |requests| ==> requests[k].0 == Input || requests[k].0 == Output
    ensures r.Success? ==> |r.value.0.nodes| == |g.nodes| + |requests|
    decreases |requests|
  {
    if requests == [] then Success((g, next))
    else
      match WithInitialNode(g, next, requests[0].0, requests[0].1)
      case Failure(e) => Failure(e)
      case Success(s) => WithInitialNodes(s.0, s.1, requests[1..])
  }

  /** `randomizeConnectionWeights` with the k-th draw of the random function given as `draw(k)`. */
  function Reweighted(cs: seq<Connection>, draw: nat -> real): seq<Connection>
  {
    seq(|cs|, k requires 0 <= k < |cs| => cs[k].(weight := draw(k)))
  }

  // ----- the invariant of a network built by addInitialNode -----

  predicate IsOfType(g: Genome, id: int, t: NodeType)
  {
    0 <= id < |g.nodes| && g.nodes[id].nodeType == t
  }

  /** The (input, output) pairs of the connections, in order. */
  function Edges(cs: seq<Connection>): seq<(int, int)>
  {
    seq(|cs|, k requires 0 <= k < |cs| => (cs[k].input, cs[k].output))
  }

  ghost predicate IdsAreIndices(ns: seq<Node>)
  {
    forall k :: 0 <= k < |ns| ==> ns[k].id == k
  }

  /** Innovation numbers strictly increase along the list and all lie below the counter. */
  ghost predicate InnovationsBelow(cs: seq<Connection>, next: int)
  {
    && (forall p, q :: 0 <= p < q < |cs| ==> cs[p].innovationNum < cs[q].innovationNum)
    && (forall k :: 0 <= k < |cs| ==> cs[k].innovationNum < next)
  }

  /**
   * The connections are exactly inputs x outputs: each joins an input to an output, every
   * (input, output) pair is joined, no two connections match, and there are |inputs| * |outputs|.
   */
  ghost predicate CompleteBipartite(g: Genome)
  {
    && (forall k :: 0 <= k < |g.connections| ==>
          IsOfType(g, g.connections[k].input, Input) && IsOfType(g, g.connections[k].output, Output))
    && (forall i, o :: IsOfType(g, i, Input) && IsOfType(g, o, Output) ==> (i, o) in Edges(g.connections))
    && (forall p, q :: 0 <= p < q < |g.connections| ==> !Matches(g.connections[p], g.connections[q]))
    && |g.connections| == |g.inputs| * |g.outputs|
  }

  /** The invariant of every network built from EmptyGenome by `addInitialNode`, with the counter at `next`. */
  ghost predicate Valid(g: Genome, next: int)
  {
    && IdsAreIndices(g.nodes)
    && (forall k :: 0 <= k < |g.nodes| ==> g.nodes[k].nodeType == Input || g.nodes[k].nodeType == Output)
    && g.inputs == OfType(g.nodes, Input)
    && g.outputs == OfType(g.nodes, Output)
    && CompleteBipartite(g)
    && InnovationsBelow(g.connections, next)
  }

  // ----- lemmas -----

  lemma OfTypeAppend(ns: seq<Node>, x: Node, t: NodeType)
    ensures OfType(ns + [x], t) == OfType(ns, t) + (if x.nodeType == t then [x] else [])
  {
    assert (ns + [x])[..|ns|] == ns;
  }

  /** Every node of the typed sublist has that type and sits at the index its id names. */
  lemma {:induction false} OfTypeSound(ns: seq<Node>, t: NodeType)
    requires IdsAreIndices(ns)
    ensures forall x :: x in OfType(ns, t) ==> 0 <= x.id < |ns| && ns[x.id] == x && x.nodeType == t
  {
    if ns != [] {
      var init := ns[..|ns| - 1];
      OfTypeSound(init, t);
      assert ns == init + [ns[|ns| - 1]];
      OfTypeAppend(init, ns[|ns| - 1], t);
    }
  }

  /** The ids along the typed sublist strictly increase. */
  lemma {:induction false} OfTypeIncreasing(ns: seq<Node>, t: NodeType)
    requires IdsAreIndices(ns)
    ensures forall p, q :: 0 <= p < q < |OfType(ns, t)| ==> OfType(ns, t)[p].id < OfType(ns, t)[q].id
  {
    if ns != [] {
      var init := ns[..|ns| - 1];
      var x := ns[|ns| - 1];
      OfTypeIncreasing(init, t);
      OfTypeSound(init, t);
      assert ns == init + [x];
      OfTypeAppend(init, x, t);
      var sub := OfType(init, t);
      forall p | 0 <= p < |sub|
        ensures sub[p].id < x.id
      {
        assert sub[p] in sub;
      }
    }
  }

  /** Every node of type `t` appears in the typed sublist. */
  lemma {:induction false} OfTypeComplete(ns: seq<Node>, t: NodeType)
    ensures forall k :: 0 <= k < |ns| && ns[k].nodeType == t ==> ns[k] in OfType(ns, t)
  {
    if ns != [] {
      var init := ns[..|ns| - 1];
      OfTypeComplete(init, t);
      assert ns == init + [ns[|ns| - 1]];
      OfTypeAppend(init, ns[|ns| - 1], t);
      forall k | 0 <= k < |ns| && ns[k].nodeType == t
        ensures ns[k] in OfType(ns, t)
      {
        if k < |init| {
          assert ns[k] == init[k];
        }
      }
    }
  }

  lemma EdgesAppend(cs: seq<Connection>, ds: seq<Connection>)
    ensures Edges(cs + ds) == Edges(cs) + Edges(ds)
  {
    assert |Edges(cs + ds)| == |Edges(cs) + Edges(ds)|;
    forall k | 0 <= k < |cs + ds|
      ensures Edges(cs + ds)[k] == (Edges(cs) + Edges(ds))[k]
    {
      if k >= |cs| {
        assert (cs + ds)[k] == ds[k - |cs|];
      }
    }
  }

  /** After adding an input, every connection still joins an input to an output. */
  lemma AddInputEndpoints(g: Genome, next: int, name: Option<string>)
    requires Valid(g, next)
    ensures var g' := AddInput(g, next, name).0;
      forall k :: 0 <= k < |g'.connections| ==>
        IsOfType(g', g'.connections[k].input, Input) && IsOfType(g', g'.connections[k].output, Output)
  {
    var g' := AddInput(g, next, name).0;
    var cs, cs' := g.connections, g'.connections;
    OfTypeSound(g.nodes, Output);
    forall k | 0 <= k < |cs'|
      ensures IsOfType(g', cs'[k].input, Input) && IsOfType(g', cs'[k].output, Output)
    {
      if k >= |cs| {
        assert g.outputs[k - |cs|] in g.outputs;
      } else {
        assert cs'[k] == cs[k];
        assert IsOfType(g, cs[k].input, Input) && IsOfType(g, cs[k].output, Output);
      }
    }
  }

  /** After adding an input, every (input, output) pair is joined. */
  lemma AddInputCovers(g: Genome, next: int, name: Option<string>)
    requires Valid(g, next)
    ensures var g' := AddInput(g, next, name).0;
      forall i, o :: IsOfType(g', i, Input) && IsOfType(g', o, Output) ==> (i, o) in Edges(g'.connections)
  {
    var g' := AddInput(g, next, name).0;
    var added := FanOut(|g.nodes|, g.outputs, next);
    EdgesAppend(g.connections, added);
    OfTypeComplete(g.nodes, Output);
    OfTypeSound(g.nodes, Output);
    forall i, o | IsOfType(g', i, Input) && IsOfType(g', o, Output)
      ensures (i, o) in Edges(g'.connections)
    {
      assert o < |g.nodes| && g.nodes[o].nodeType == Output;
      if i == |g.nodes| {
        assert g.nodes[o] in g.outputs;
        var k :| 0 <= k < |g.outputs| && g.outputs[k] == g.nodes[o];
        assert Edges(added)[k] == (i, o);
      } else {
        assert IsOfType(g, i, Input) && IsOfType(g, o, Output);
      }
    }
  }

  /** After adding an input, no two connections match. */
  lemma AddInputDistinct(g: Genome, next: int, name: Option<string>)
    requires Valid(g, next)
    ensures var cs' := AddInput(g, next, name).0.connections;
      forall p, q :: 0 <= p < q < |cs'| ==> !Matches(cs'[p], cs'[q])
  {
    var cs, cs' := g.connections, AddInput(g, next, name).0.connections;
    OfTypeIncreasing(g.nodes, Output);
    forall p, q | 0 <= p < q < |cs'|
      ensures !Matches(cs'[p], cs'[q])
    {
      if q >= |cs| && p < |cs| {
        assert IsOfType(g, cs[p].input, Input);
      } else if p >= |cs| {
        assert g.outputs[p - |cs|].id < g.outputs[q - |cs|].id;
      }
    }
  }

  /** Adding an input keeps the invariant. */
  lemma AddInputKeepsValid(g: Genome, next: int, name: Option<string>)
    requires Valid(g, next)
    ensures Valid(AddInput(g, next, name).0, AddInput(g, next, name).1)
  {
    var n := Node(|g.nodes|, Input, name);
    var (g', next') := AddInput(g, next, name);
    OfTypeAppend(g.nodes, n, Input);
    OfTypeAppend(g.nodes, n, Output);
    AddInputEndpoints(g, next, name);
    AddInputCovers(g, next, name);
    AddInputDistinct(g, next, name);
    assert |g'.connections| == |g'.inputs| * |g'.outputs| by {
      assert |g'.inputs| * |g'.outputs| == (|g.inputs| + 1) * |g.outputs| == |g.inputs| * |g.outputs| + |g.outputs|;
    }
  }

  /** After adding an output, every connection still joins an input to an output. */
  lemma AddOutputEndpoints(g: Genome, next: int, name: Option<string>)
    requires Valid(g, next)
    ensures var g' := AddOutput(g, next, name).0;
      forall k :: 0 <= k < |g'.connections| ==>
        IsOfType(g', g'.connections[k].input, Input) && IsOfType(g', g'.connections[k].output, Output)
  {
    var g' := AddOutput(g, next, name).0;
    var cs, cs' := g.connections, g'.connections;
    OfTypeSound(g.nodes, Input);
    forall k | 0 <= k < |cs'|
      ensures IsOfType(g', cs'[k].input, Input) && IsOfType(g', cs'[k].output, Output)
    {
      if k >= |cs| {
        assert g.inputs[k - |cs|] in g.inputs;
      } else {
        assert cs'[k] == cs[k];
        assert IsOfType(g, cs[k].input, Input) && IsOfType(g, cs[k].output, Output);
      }
    }
  }

  /** After adding an output, every (input, output) pair is joined. */
  lemma AddOutputCovers(g: Genome, next: int, name: Option<string>)
    requires Valid(g, next)
    ensures var g' := AddOutput(g, next, name).0;
      forall i, o :: IsOfType(g', i, Input) && IsOfType(g', o, Output) ==> (i, o) in Edges(g'.connections)
  {
    var g' := AddOutput(g, next, name).0;
    var added := FanIn(g.inputs, |g.nodes|, next);
    EdgesAppend(g.connections, added);
    OfTypeComplete(g.nodes, Input);
    OfTypeSound(g.nodes, Input);
    forall i, o | IsOfType(g', i, Input) && IsOfType(g', o, Output)
      ensures (i, o) in Edges(g'.connections)
    {
      assert i < |g.nodes| && g.nodes[i].nodeType == Input;
      if o == |g.nodes| {
        assert g.nodes[i] in g.inputs;
        var k :| 0 <= k < |g.inputs| && g.inputs[k] == g.nodes[i];
        assert Edges(added)[k] == (i, o);
      } else {
        assert IsOfType(g, i, Input) && IsOfType(g, o, Output);
      }
    }
  }

  /** After adding an output, no two connections match. */
  lemma AddOutputDistinct(g: Genome, next: int, name: Option<string>)
    requires Valid(g, next)
    ensures var cs' := AddOutput(g, next, name).0.connections;
      forall p, q :: 0 <= p < q < |cs'| ==> !Matches(cs'[p], cs'[q])
  {
    var cs, cs' := g.connections, AddOutput(g, next, name).0.connections;
    OfTypeIncreasing(g.nodes, Input);
    forall p, q | 0 <= p < q < |cs'|
      ensures !Matches(cs'[p], cs'[q])
    {
      if q >= |cs| && p < |cs| {
        assert IsOfType(g, cs[p].output, Output);
      } else if p >= |cs| {
        assert g.inputs[p - |cs|].id < g.inputs[q - |cs|].id;
      }
    }
  }

  /** Adding an output keeps the invariant. */
  lemma AddOutputKeepsValid(g: Genome, next: int, name: Option<string>)
    requires Valid(g, next)
    ensures Valid(AddOutput(g, next, name).0, AddOutput(g, next, name).1)
  {
    var n := Node(|g.nodes|, Output, name);
    var (g', next') := AddOutput(g, next, name);
    OfTypeAppend(g.nodes, n, Input);
    OfTypeAppend(g.nodes, n, Output);
    AddOutputEndpoints(g, next, name);
    AddOutputCovers(g, next, name);
    AddOutputDistinct(g, next, name);
    assert |g'.connections| == |g'.inputs| * |g'.outputs| by {
      assert |g'.inputs| * |g'.outputs| == |g.inputs| * (|g.outputs| + 1) == |g.inputs| * |g.outputs| + |g.inputs|;
    }
  }

  /** A new network satisfies the invariant whatever the counter stands at. */
  lemma EmptyGenomeValid(next: int)
    ensures Valid(EmptyGenome(), next)
  {
  }

  /** One successful `addInitialNode` keeps the invariant. */
  lemma WithInitialNodeKeepsValid(g: Genome, next: int, t: NodeType, name: Option<string>)
    requires Valid(g, next)
    ensures WithInitialNode(g, next, t, name).Success? ==>
      Valid(WithInitialNode(g, next, t, name).value.0, WithInitialNode(g, next, t, name).value.1)
  {
    if t == Input {
      AddInputKeepsValid(g, next, name);
    } else if t == Output {
      AddOutputKeepsValid(g, next, name);
    }
  }

  /** Any sequence of `addInitialNode` calls keeps the invariant. */
  lemma {:induction false} WithInitialNodesKeepsValid(g: Genome, next: int, requests: seq<(NodeType, Option<string>)>)
    requires Valid(g, next)
    ensures WithInitialNodes(g, next, requests).Success? ==>
      Valid(WithInitialNodes(g, next, requests).value.0, WithInitialNodes(g, next, requests).value.1)
    decreases |requests|
  {
    if requests != [] {
      WithInitialNodeKeepsValid(g, next, requests[0].0, requests[0].1);
      match WithInitialNode(g, next, requests[0].0, requests[0].1)
      case Failure(e) =>
      case Success(s) => WithInitialNodesKeepsValid(s.0, s.1, requests[1..]);
    }
  }

  /** Every network built from an empty one has a complete bipartite wiring with distinct innovation numbers. */
  lemma BuiltNetworkIsCompleteBipartite(next: int, requests: seq<(NodeType, Option<string>)>)
    ensures WithInitialNodes(EmptyGenome(), next, requests).Success? ==>
      var g := WithInitialNodes(EmptyGenome(), next, requests).value.0;
      && CompleteBipartite(g)
      && (forall p, q :: 0 <= p < q < |g.connections| ==> g.connections[p].innovationNum != g.connections[q].innovationNum)
  {
    EmptyGenomeValid(next);
    WithInitialNodesKeepsValid(EmptyGenome(), next, requests);
  }

  /** `addConnection` keeps the innovation numbers increasing and the counter above them. */
  lemma AppendKeepsInnovationsBelow(cs: seq<Connection>, next: int, input: int, output: int, weight: real, enabled: bool)
    requires InnovationsBelow(cs, next)
    ensures InnovationsBelow(cs + [Connection(input, output, weight, enabled, next)], next + 1)
  {
  }

  /** Randomizing weights changes weights only, so a valid network stays valid. */
  lemma ReweightedKeepsStructure(g: Genome, next: int, draw: nat -> real)
    ensures |Reweighted(g.connections, draw)| == |g.connections|
    ensures forall k :: 0 <= k < |g.connections| ==>
      var c, c' := g.connections[k], Reweighted(g.connections, draw)[k];
      c'.input == c.input && c'.output == c.output && c'.enabled == c.enabled &&
      c'.innovationNum == c.innovationNum && c'.weight == draw(k)
    ensures Valid(g, next) ==> Valid(g.(connections := Reweighted(g.connections, draw)), next)
  {
    var cs := Reweighted(g.connections, draw);
    assert Edges(cs) == Edges(g.connections);
  }

  // ----- the network as the source keeps it: four arrays updated in place -----

  /** The static `NN.innovationNumber`, shared by every network that is passed the same counter. */
  class InnovationCounter {
    var next: int

    constructor ()
      ensures next == 0
    {
      next := 0;
    }
  }

  class NN {
    var inputs: seq<Node>
    var outputs: seq<Node>
    var nodes: seq<Node>
    var connections: seq<Connection>

    function Model(): Genome
      reads this
    {
      Genome(inputs, outputs, nodes, connections)
    }

    /** An empty network. */
    constructor ()
      ensures Model() == EmptyGenome()
    {
      inputs, outputs, nodes, connections := [], [], [], [];
    }

    /**
     * A fresh network with the same nodes and connections. (The source's `copy` is not
     * implemented yet; this is the clone the population construction relies on.)
     */
    method Copy() returns (c: NN)
      ensures fresh(c) && c.Model() == Model()
    {
      c := new NN();
      c.inputs, c.outputs, c.nodes, c.connections := inputs, outputs, nodes, connections;
    }

    method AddInitialNode(t: NodeType, name: Option<string>, counter: InnovationCounter) returns (r: Outcome<NodeError>)
      modifies this, counter
      ensures match WithInitialNode(old(Model()), old(counter.next), t, name)
        case Success(s) => r == Pass && Model() == s.0 && counter.next == s.1
        case Failure(e) => r == Fail(e) && Model() == old(Model()) && counter.next == old(counter.next)
    {
      if t == Hidden {
        return Fail(HiddenNodeNotAllowed);
      }
      if t != Input && t != Output {
        return Fail(InvalidNodeType);
      }
      var node := Node(|nodes|, t, name);
      if t == Input {
        inputs := inputs + [node];
        var k := 0;
        while k < |outputs|
          invariant 0 <= k <= |outputs|
          invariant inputs == old(inputs) + [node] && outputs == old(outputs) && nodes == old(nodes)
          invariant connections == old(connections) + FanOut(node.id, outputs, old(counter.next))[..k]
          invariant counter.next == old(counter.next) + k
        {
          ghost var wired := FanOut(node.id, outputs, old(counter.next));
          assert wired[..k + 1] == wired[..k] + [wired[k]];
          AddConnection(node.id, outputs[k].id, 0.0, true, counter);
          k := k + 1;
        }
      } else {
        outputs := outputs + [node];
        var k := 0;
        while k < |inputs|
          invariant 0 <= k <= |inputs|
          invariant outputs == old(outputs) + [node] && inputs == old(inputs) && nodes == old(nodes)
          invariant connections == old(connections) + FanIn(inputs, node.id, old(counter.next))[..k]
          invariant counter.next == old(counter.next) + k
        {
          ghost var wired := FanIn(inputs, node.id, old(counter.next));
          assert wired[..k + 1] == wired[..k] + [wired[k]];
          AddConnection(inputs[k].id, node.id, 0.0, true, counter);
          k := k + 1;
        }
      }
      nodes := nodes + [node];
      return Pass;
    }

    /** Append a connection stamped with the counter's value, then bump the counter. */
    method AddConnection(input: int, output: int, weight: real, enabled: bool, counter: InnovationCounter)
      modifies this`connections, counter
      ensures connections == old(connections) + [Connection(input, output, weight, enabled, old(counter.next))]
      ensures counter.next == old(counter.next) + 1
    {
      connections := connections + [Connection(input, output, weight, enabled, counter.next)];
      counter.next := counter.next + 1;
    }

    /** Overwrite the weight of every connection with a draw; `draw(k)` is the k-th draw. */
    method RandomizeConnectionWeights(draw: nat -> real)
      modifies this`connections
      ensures connections == Reweighted(old(connections), draw)
    {
      var k := 0;
      while k < |connections|
        invariant 0 <= k <= |connections| == |old(connections)|
        invariant forall p :: 0 <= p < k ==> connections[p] == old(connections)[p].(weight := draw(p))
        invariant forall p :: k <= p < |connections| ==> connections[p] == old(connections)[p]
      {
        connections := connections[k := connections[k].(weight := draw(k))];
        k := k + 1;
      }
    }
  }
}
