/** A connection gene of a NEAT genome (src/nnconnection.js). */
module NNConnection {

  /**
   * A gene: the ids of the nodes it joins, its weight, whether it is enabled and its
   * innovation number, the historical marker that aligns genes across genomes.
   */
  datatype Connection = Connection(input: int, output: int, weight: real, enabled: bool, innovationNum: int)

  /** The connection `new NNConnection(input, output, weight, enabled, innovationNum)` builds. */
  function NewConnection(input: int, output: int, weight: real, enabled: bool, innovationNum: int): (c: Connection)
    ensures c.input == input && c.output == output && c.weight == weight
    ensures c.enabled == enabled && c.innovationNum == innovationNum
  {
    Connection(input, output, weight, enabled, innovationNum)
  }

  /** `matches`: the two genes join the same pair of nodes. */
  predicate Matches(a: Connection, b: Connection)
  {
    a.input == b.input && a.output == b.output
  }

  /** `copy()`: a separate record equal to the original in all five fields. */
  function CopyConnection(c: Connection): (r: Connection)
    ensures r == c
    ensures Matches(r, c) && Matches(c, r)
  {
    NewConnection(c.input, c.output, c.weight, c.enabled, c.innovationNum)
  }

  /** `matches` looks at the endpoints only: weight, enabled flag and innovation number are ignored. */
  lemma MatchesIgnoresPayload(a: Connection, b: Connection, weight: real, enabled: bool, innovationNum: int)
    ensures Matches(a, b) <==> Matches(a, b.(weight := weight, enabled := enabled, innovationNum := innovationNum))
    ensures Matches(a, b) <==> (a.input == b.input && a.output == b.output)
  {
  }

  /** `matches` is reflexive and symmetric. */
  lemma MatchesReflexiveSymmetric(a: Connection, b: Connection)
    ensures Matches(a, a)
    ensures Matches(a, b) ==> Matches(b, a)
  {
  }
}
