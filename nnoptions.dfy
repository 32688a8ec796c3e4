/** The speciation and breeding options of src/nnoptions.js, a sealed record of constants. */
module NNOptions {

  datatype BreedingOptions = BreedingOptions(
    compatibilityCoeffExcess: real,
    compatibilityCoeffDisjoint: real,
    compatibilityCoeffWeightDiff: real,
    compatibilityThreshold: real,
    maxGensWithoutImprovement: int,
    minSpeciesSizeToKeepBest: int,
    mutateWithoutCrossoverRate: real,
    interspeciesMatingRate: real,
    weightMutationRate: real,
    uniformPerturbationRate: real,
    keepDisabledRate: real,
    newNeuronMutationRate: real,
    newConnectionMutationRate: real)

  /**
   * The values `new NNOptions()` holds. The record has no `maxGenomeSizeToDisregardNormalization`
   * although the distance function reads one; that field is an optional parameter there.
   */
  const Defaults: BreedingOptions :=
    BreedingOptions(1.0, 1.0, 0.4, 3.0, 15, 6, 0.25, 0.001, 0.8, 0.9, 0.75, 0.03, 0.05)

  predicate IsRate(p: real)
  {
    0.0 <= p <= 1.0
  }

  /** Non-negative distance coefficients, a positive threshold, counts of at least 0, rates that are probabilities. */
  predicate Sensible(o: BreedingOptions)
  {
    && o.compatibilityCoeffExcess >= 0.0
    && o.compatibilityCoeffDisjoint >= 0.0
    && o.compatibilityCoeffWeightDiff >= 0.0
    && o.compatibilityThreshold > 0.0
    && o.maxGensWithoutImprovement >= 0
    && o.minSpeciesSizeToKeepBest >= 0
    && IsRate(o.mutateWithoutCrossoverRate)
    && IsRate(o.interspeciesMatingRate)
    && IsRate(o.weightMutationRate)
    && IsRate(o.uniformPerturbationRate)
    && IsRate(o.keepDisabledRate)
    && IsRate(o.newNeuronMutationRate)
    && IsRate(o.newConnectionMutationRate)
  }

  /** The default options are sensible, and give excess and disjoint genes equal weight. */
  lemma DefaultsSensible()
    ensures Sensible(Defaults)
    ensures Defaults.compatibilityCoeffExcess == Defaults.compatibilityCoeffDisjoint
    ensures Defaults.compatibilityCoeffWeightDiff < Defaults.compatibilityCoeffExcess
  {
  }
}
