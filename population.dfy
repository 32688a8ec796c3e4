/**
 * The first generation of networks (src/population.js): `size` clones of a template network,
 * each with freshly drawn connection weights.
 *
 * The source's `NN.copy` is not implemented; `NN.Copy` stands for the structure-preserving
 * fresh clone the loop relies on. The k-th weight drawn for the i-th network is `draws(i)(k)`.
 */
module Populations {
  import opened NeuralNet

  class Population {
    var size: int
    var networks: seq<NN>

    constructor (size: int, template: NN, draws: nat -> nat -> real)
      ensures this.size == size
      ensures |networks| == if size > 0 then size else 0
      ensures forall i :: 0 <= i < |networks| ==> fresh(networks[i]) && networks[i] != template
      ensures forall i, j :: 0 <= i < j < |networks| ==> networks[i] != networks[j]
      ensures forall i :: 0 <= i < |networks| ==>
        networks[i].Model() == template.Model().(connections := Reweighted(template.connections, draws(i)))
      ensures template.Model() == old(template.Model())
    {
      this.size := size;
      networks := [];
      new;
      ghost var original := template.Model();
      var i := 0;
      while i < size
        invariant i == |networks|
        invariant size > 0 ==> i <= size
        invariant size <= 0 ==> i == 0
        invariant this.size == size
        invariant template.Model() == original
        invariant forall k :: 0 <= k < i ==> fresh(networks[k]) && networks[k] != template
        invariant forall k, j :: 0 <= k < j < i ==> networks[k] != networks[j]
        invariant forall k :: 0 <= k < i ==>
          networks[k].Model() == original.(connections := Reweighted(original.connections, draws(k)))
      {
        var nn := template.Copy();
        nn.RandomizeConnectionWeights(draws(i));
        networks := networks + [nn];
        i := i + 1;
      }
    }
  }
}
