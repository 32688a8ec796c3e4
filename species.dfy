/**
 * A species of a NEAT population (src/species.js): a representative network, the networks
 * assigned to the species this generation, and a stagnation counter.
 *
 * Networks are an opaque type `T`; their fitness, which the source reads from a property set
 * elsewhere, is a function passed in. `Math.random()` is the parameter `pick` in [0, 1).
 */
module Speciation {
  import opened Wrappers
  import Draws

  /**
   * The index `reduce((prev, curr) => curr.fitness > prev.fitness ? curr : prev)` ends on:
   * a member of maximal fitness, and the earliest such one since only a strictly fitter
   * member replaces the running choice.
   */
  function FittestIndex<T>(ns: seq<T>, fitness: T -> real): (i: nat)
    requires |ns| > 0
    ensures i < |ns|
    ensures forall k :: 0 <= k < |ns| ==> fitness(ns[k]) <= fitness(ns[i])
    ensures forall k :: 0 <= k < i ==> fitness(ns[k]) < fitness(ns[i])
  {
    if |ns| == 1 then 0
    else
      var p := FittestIndex(ns[..|ns| - 1], fitness);
      if fitness(ns[|ns| - 1]) > fitness(ns[p]) then |ns| - 1 else p
  }

  class Species<T(==)> {
    var representative: Option<T>
    var networks: seq<T>
    var gensWithoutImprovement: int

    /** A species founded by a single network, which is also its representative. */
    constructor (nn: T)
      ensures representative == Some(nn) && networks == [nn] && gensWithoutImprovement == 0
    {
      representative := Some(nn);
      networks := [nn];
      gensWithoutImprovement := 0;
    }

    /**
     * Pick the representative at index floor(pick * |networks|) and empty the species. With no
     * networks the index reads past the end and the representative becomes undefined (`None`).
     */
    method PrepareForNextGen(pick: real)
      requires 0.0 <= pick < 1.0
      modifies this
      ensures var k := Draws.ScaledFloor(pick, |old(networks)|);
        if old(networks) == [] then representative == None
        else k < |old(networks)| && representative == Some(old(networks)[k])
      ensures networks == [] && gensWithoutImprovement == old(gensWithoutImprovement)
    {
      var index := Draws.ScaledFloor(pick, |networks|);
      if index < |networks| {
        representative := Some(networks[index]);
      } else {
        representative := None;
      }
      networks := [];
    }

    /** Append one network. */
    method Add(nn: T)
      modifies this`networks
      ensures networks == old(networks) + [nn]
    {
      networks := networks + [nn];
    }

    /**
     * The fittest network: one whose fitness no member exceeds, the earliest on ties. `reduce`
     * without an initial value throws on an empty species, which is `None` here.
     */
    function GetFittest(fitness: T -> real): (r: Option<T>)
      reads this
      ensures r.None? <==> networks == []
      ensures r.Some? ==> r.value in networks
      ensures r.Some? ==> forall k :: 0 <= k < |networks| ==> fitness(networks[k]) <= fitness(r.value)
      ensures r.Some? ==> exists i :: 0 <= i < |networks| && networks[i] == r.value &&
                            forall k :: 0 <= k < i ==> fitness(networks[k]) < fitness(r.value)
    {
      if networks == [] then None
      else
        var i := FittestIndex(networks, fitness);
        Some(networks[i])
    }
  }
}
