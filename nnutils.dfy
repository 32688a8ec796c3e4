/**
 * The NEAT compatibility distance of src/nnutils.js: excess genes, disjoint genes and the mean
 * weight difference of matching genes, combined as c1*E/N + c2*D/N + c3*W.
 *
 * The source computes each of these with loops over the connection lists; the methods below
 * run the same loops and are proved equal to the specification functions, and the lemmas
 * state what those functions satisfy (symmetry, zero on identical genomes, bounds).
 */
module NNUtils {
  import opened Wrappers
  import opened NNConnection
  import opened NNOptions
  import NeuralNet

  function Max(x: int, y: int): int
  {
    if x >= y then x else y
  }

  function Min(x: int, y: int): int
  {
    if x <= y then x else y
  }

  /** `Math.abs` on an integer. */
  function AbsInt(x: int): nat
  {
    if x < 0 then -x else x
  }

  /** `Math.abs` on a real. */
  function AbsReal(x: real): real
  {
    if x < 0.0 then -x else x
  }

  // ----- specification functions -----

  /** The running maximum the source keeps: the largest innovation number, or 0 when none is larger. */
  function MaxInnovation(cs: seq<Connection>): (m: int)
    ensures m >= 0
    ensures forall k :: 0 <= k < |cs| ==> cs[k].innovationNum <= m
    ensures m == 0 || exists k :: 0 <= k < |cs| && cs[k].innovationNum == m
  {
    if cs == [] then 0
    else Max(MaxInnovation(cs[..|cs| - 1]), cs[|cs| - 1].innovationNum)
  }

  predicate HasInnovation(cs: seq<Connection>, i: int)
  {
    exists k :: 0 <= k < |cs| && cs[k].innovationNum == i
  }

  /** The number of innovation numbers in [0, n) present in exactly one of the two lists. */
  function DisjointBelow(a: seq<Connection>, b: seq<Connection>, n: nat): (d: nat)
    ensures d <= n
  {
    if n == 0 then 0
    else DisjointBelow(a, b, n - 1) + (if HasInnovation(a, n - 1) != HasInnovation(b, n - 1) then 1 else 0)
  }

  /** `disjointGenes`: innovation numbers in [0, min(maxA, maxB)] present in exactly one genome. */
  function DisjointCount(a: seq<Connection>, b: seq<Connection>): (d: nat)
    ensures d <= Min(MaxInnovation(a), MaxInnovation(b)) + 1
  {
    DisjointBelow(a, b, Min(MaxInnovation(a), MaxInnovation(b)) + 1)
  }

  /** `excessGenes`: the gap between the two largest innovation numbers. */
  function ExcessCount(a: seq<Connection>, b: seq<Connection>): (e: nat)
    ensures e == 0 <==> MaxInnovation(a) == MaxInnovation(b)
  {
    AbsInt(MaxInnovation(a) - MaxInnovation(b))
  }

  /** The first gene of `b` with innovation number `i`, which is where the source's inner loop breaks. */
  function FirstWithInnovation(b: seq<Connection>, i: int): (r: Option<Connection>)
    ensures r.None? <==> !HasInnovation(b, i)
    ensures r.Some? ==> r.value in b && r.value.innovationNum == i
  {
    if b == [] then None
    else if b[0].innovationNum == i then Some(b[0])
    else
      var r := FirstWithInnovation(b[1..], i);
      assert HasInnovation(b[1..], i) ==> HasInnovation(b, i);
      assert HasInnovation(b, i) ==> b[0].innovationNum == i || HasInnovation(b[1..], i) by {
        if HasInnovation(b, i) {
          var k :| 0 <= k < |b| && b[k].innovationNum == i;
          if k > 0 {
            assert b[1..][k - 1] == b[k];
          }
        }
      }
      r
  }

  /** |w_b - w_a| for gene `x` of genome a matched to its first partner in `b`, or 0 without a partner. */
  function WeightTerm(x: Connection, b: seq<Connection>): real
  {
    match FirstWithInnovation(b, x.innovationNum)
    case Some(g) => AbsReal(g.weight - x.weight)
    case None => 0.0
  }

  function CountTerm(x: Connection, b: seq<Connection>): nat
  {
    if FirstWithInnovation(b, x.innovationNum).Some? then 1 else 0
  }

  /** `weightSum`: the weight differences summed over the genes of `a` that have a partner in `b`. */
  function MatchedWeightSum(a: seq<Connection>, b: seq<Connection>): (s: real)
    ensures s >= 0.0
  {
    if a == [] then 0.0 else WeightTerm(a[0], b) + MatchedWeightSum(a[1..], b)
  }

  /** `weightCount`: the number of genes of `a` that have a partner in `b`. */
  function MatchedCount(a: seq<Connection>, b: seq<Connection>): (n: nat)
    ensures n <= |a|
  {
    if a == [] then 0 else CountTerm(a[0], b) + MatchedCount(a[1..], b)
  }

  /**
   * N: 1 when both genomes are below `maxGenomeSizeToDisregardNormalization`, else the larger
   * connection count. The options record may lack that field (`None`); a comparison with an
   * undefined value is false in JavaScript, so N is then always the larger count.
   */
  function Normalizer(a: seq<Connection>, b: seq<Connection>, threshold: Option<int>): (n: int)
    ensures n == 1 || n == Max(|a|, |b|)
    ensures threshold.None? ==> n == Max(|a|, |b|)
  {
    if threshold.Some? && |a| < threshold.value && |b| < threshold.value then 1 else Max(|a|, |b|)
  }

  /** The formula c1*E/N + c2*D/N + c3*W, where W is the mean weight difference of matched genes. */
  function Combine(opts: BreedingOptions, e: nat, d: nat, n: int, weightSum: real, weightCount: nat): real
    requires n >= 1 && weightCount >= 1
  {
    (opts.compatibilityCoeffExcess * e as real) / n as real
      + (opts.compatibilityCoeffDisjoint * d as real) / n as real
      + opts.compatibilityCoeffWeightDiff * (weightSum / weightCount as real)
  }

  /** `distance`: 0 when no gene matches, else c1*E/N + c2*D/N + c3*W. */
  function CompatibilityDistance(a: seq<Connection>, b: seq<Connection>, opts: BreedingOptions, threshold: Option<int>): (dist: real)
    ensures MatchedCount(a, b) == 0 ==> dist == 0.0
  {
    var count := MatchedCount(a, b);
    if count == 0 then 0.0
    else
      assert a != [];
      Combine(opts, ExcessCount(a, b), DisjointCount(a, b), Normalizer(a, b, threshold), MatchedWeightSum(a, b), count)
  }

  /** Innovation numbers are unique within the list. */
  ghost predicate UniqueInnovations(cs: seq<Connection>)
  {
    forall p, q :: 0 <= p < q < |cs| ==> cs[p].innovationNum != cs[q].innovationNum
  }

  // ----- the loops of the source, proved equal to the functions above -----

  /** The maximum-innovation loop that opens `disjointGenes` and `excessGenes`. */
  method MaxInnovationOf(cs: seq<Connection>) returns (m: int)
    ensures m == MaxInnovation(cs)
  {
    m := 0;
    var k := 0;
    while k < |cs|
      invariant 0 <= k <= |cs|
      invariant m == MaxInnovation(cs[..k])
    {
      assert cs[..k + 1][..k] == cs[..k];
      if cs[k].innovationNum > m {
        m := cs[k].innovationNum;
      }
      k := k + 1;
    }
    assert cs[..k] == cs;
  }

  /** The search loop of `disjointGenes`, which breaks at the first gene carrying innovation `i`. */
  method ContainsInnovation(cs: seq<Connection>, i: int) returns (found: bool)
    ensures found == HasInnovation(cs, i)
  {
    found := false;
    var k := 0;
    while k < |cs|
      invariant 0 <= k <= |cs|
      invariant !found
      invariant forall p :: 0 <= p < k ==> cs[p].innovationNum != i
    {
      if cs[k].innovationNum == i {
        found := true;
        break;
      }
      k := k + 1;
    }
  }

  method ExcessGenes(a: NeuralNet.Genome, b: NeuralNet.Genome) returns (e: int)
    ensures e == ExcessCount(a.connections, b.connections)
  {
    var aMax := MaxInnovationOf(a.connections);
    var bMax := MaxInnovationOf(b.connections);
    e := AbsInt(aMax - bMax);
  }

  method DisjointGenes(a: NeuralNet.Genome, b: NeuralNet.Genome) returns (d: int)
    ensures d == DisjointCount(a.connections, b.connections)
  {
    var aMax := MaxInnovationOf(a.connections);
    var bMax := MaxInnovationOf(b.connections);
    d := 0;
    var i := 0;
    while i <= Min(aMax, bMax)
      invariant 0 <= i <= Min(aMax, bMax) + 1
      invariant d == DisjointBelow(a.connections, b.connections, i)
    {
      var aFound := ContainsInnovation(a.connections, i);
      var bFound := ContainsInnovation(b.connections, i);
      if aFound != bFound {
        d := d + 1;
      }
      i := i + 1;
    }
  }

  /** The inner loop of `distance`, which breaks at the first gene of `b` sharing x's innovation number. */
  method FindPartner(b: seq<Connection>, x: Connection) returns (partner: Option<Connection>)
    ensures partner == FirstWithInnovation(b, x.innovationNum)
  {
    var j := 0;
    while j < |b|
      invariant 0 <= j <= |b|
      invariant forall k :: 0 <= k < j ==> b[k].innovationNum != x.innovationNum
    {
      if x.innovationNum == b[j].innovationNum {
        FirstWithInnovationAt(b, x.innovationNum, j);
        return Some(b[j]);
      }
      j := j + 1;
    }
    return None;
  }

  /** `distance(a, b, options)`; `threshold` is the options' `maxGenomeSizeToDisregardNormalization`, if any. */
  method Distance(a: NeuralNet.Genome, b: NeuralNet.Genome, opts: BreedingOptions, threshold: Option<int>) returns (dist: real)
    ensures dist == CompatibilityDistance(a.connections, b.connections, opts, threshold)
  {
    var ca, cb := a.connections, b.connections;
    var e := ExcessGenes(a, b);
    var d := DisjointGenes(a, b);
    var n := if threshold.Some? && |ca| < threshold.value && |cb| < threshold.value then 1 else Max(|ca|, |cb|);

    var weightSum, weightCount := 0.0, 0;
    var i := 0;
    while i < |ca|
      invariant 0 <= i <= |ca|
      invariant weightSum + MatchedWeightSum(ca[i..], cb) == MatchedWeightSum(ca, cb)
      invariant weightCount + MatchedCount(ca[i..], cb) == MatchedCount(ca, cb)
    {
      assert ca[i..][1..] == ca[i + 1..];
      var partner := FindPartner(cb, ca[i]);
      if partner.Some? {
        weightSum := weightSum + AbsReal(partner.value.weight - ca[i].weight);
        weightCount := weightCount + 1;
      }
      i := i + 1;
    }

    if weightCount == 0 {
      return 0.0;
    }
    assert ca != [];
    dist := Combine(opts, e, d, n, weightSum, weightCount);
  }

  // ----- lemmas -----

  /** The inner loop's stopping point is the first gene with the innovation number. */
  lemma {:induction false} FirstWithInnovationAt(b: seq<Connection>, i: int, j: nat)
    requires j < |b| && b[j].innovationNum == i
    requires forall k :: 0 <= k < j ==> b[k].innovationNum != i
    ensures FirstWithInnovation(b, i) == Some(b[j])
  {
    if j > 0 {
      FirstWithInnovationAt(b[1..], i, j - 1);
    }
  }

  lemma ExcessSymmetricAndSelf(a: seq<Connection>, b: seq<Connection>)
    ensures ExcessCount(a, b) == ExcessCount(b, a)
    ensures ExcessCount(a, a) == 0
    ensures MaxInnovation(a) == MaxInnovation(b) ==> ExcessCount(a, b) == 0
  {
  }

  lemma {:induction false} DisjointBelowSymmetric(a: seq<Connection>, b: seq<Connection>, n: nat)
    ensures DisjointBelow(a, b, n) == DisjointBelow(b, a, n)
  {
    if n > 0 {
      DisjointBelowSymmetric(a, b, n - 1);
    }
  }

  /** `disjointGenes` is symmetric. */
  lemma DisjointSymmetric(a: seq<Connection>, b: seq<Connection>)
    ensures DisjointCount(a, b) == DisjointCount(b, a)
  {
    DisjointBelowSymmetric(a, b, Min(MaxInnovation(a), MaxInnovation(b)) + 1);
  }

  lemma {:induction false} DisjointBelowSelf(a: seq<Connection>, n: nat)
    ensures DisjointBelow(a, a, n) == 0
  {
    if n > 0 {
      DisjointBelowSelf(a, n - 1);
    }
  }

  /** A genome has no disjoint genes with itself. */
  lemma DisjointSelf(a: seq<Connection>)
    ensures DisjointCount(a, a) == 0
  {
    DisjointBelowSelf(a, MaxInnovation(a) + 1);
  }

  /** Without any shared innovation number no gene has a partner. */
  lemma {:induction false} MatchedCountNoShared(a: seq<Connection>, b: seq<Connection>)
    requires forall p, q :: 0 <= p < |a| && 0 <= q < |b| ==> a[p].innovationNum != b[q].innovationNum
    ensures MatchedCount(a, b) == 0
  {
    if a != [] {
      assert !HasInnovation(b, a[0].innovationNum);
      MatchedCountNoShared(a[1..], b);
    }
  }

  /** `distance` is 0 when the genomes share no innovation number, whatever E and D are. */
  lemma DistanceZeroWithoutSharedGenes(a: seq<Connection>, b: seq<Connection>, opts: BreedingOptions, threshold: Option<int>)
    requires forall p, q :: 0 <= p < |a| && 0 <= q < |b| ==> a[p].innovationNum != b[q].innovationNum
    ensures CompatibilityDistance(a, b, opts, threshold) == 0.0
  {
    MatchedCountNoShared(a, b);
  }

  /** When the formula is reached (some gene matched), N is at least 1. */
  lemma NormalizerPositive(a: seq<Connection>, b: seq<Connection>, threshold: Option<int>)
    requires MatchedCount(a, b) > 0
    ensures Normalizer(a, b, threshold) >= 1
    ensures Normalizer(a, b, threshold) == 1 || Normalizer(a, b, threshold) == Max(|a|, |b|)
  {
    assert a != [];
  }

  lemma ProductNonNegative(x: real, y: real)
    requires x >= 0.0 && y >= 0.0
    ensures x * y >= 0.0
  {
  }

  lemma QuotientNonNegative(x: real, y: real)
    requires x >= 0.0 && y > 0.0
    ensures x / y >= 0.0
  {
  }

  /** Each term of the formula is non-negative when the coefficients and inputs are. */
  lemma CombineNonNegative(opts: BreedingOptions, e: nat, d: nat, n: int, weightSum: real, weightCount: nat)
    requires n >= 1 && weightCount >= 1 && weightSum >= 0.0
    requires opts.compatibilityCoeffExcess >= 0.0 && opts.compatibilityCoeffDisjoint >= 0.0
    requires opts.compatibilityCoeffWeightDiff >= 0.0
    ensures Combine(opts, e, d, n, weightSum, weightCount) >= 0.0
  {
    ProductNonNegative(opts.compatibilityCoeffExcess, e as real);
    QuotientNonNegative(opts.compatibilityCoeffExcess * e as real, n as real);
    ProductNonNegative(opts.compatibilityCoeffDisjoint, d as real);
    QuotientNonNegative(opts.compatibilityCoeffDisjoint * d as real, n as real);
    QuotientNonNegative(weightSum, weightCount as real);
    ProductNonNegative(opts.compatibilityCoeffWeightDiff, weightSum / weightCount as real);
  }

  /** With non-negative coefficients the distance is non-negative. */
  lemma DistanceNonNegative(a: seq<Connection>, b: seq<Connection>, opts: BreedingOptions, threshold: Option<int>)
    requires opts.compatibilityCoeffExcess >= 0.0 && opts.compatibilityCoeffDisjoint >= 0.0
    requires opts.compatibilityCoeffWeightDiff >= 0.0
    ensures CompatibilityDistance(a, b, opts, threshold) >= 0.0
  {
    var count := MatchedCount(a, b);
    if count > 0 {
      NormalizerPositive(a, b, threshold);
      CombineNonNegative(opts, ExcessCount(a, b), DisjointCount(a, b), Normalizer(a, b, threshold),
                         MatchedWeightSum(a, b), count);
    }
  }

  lemma {:induction false} MatchedAgainstEmpty(b: seq<Connection>)
    ensures MatchedWeightSum(b, []) == 0.0 && MatchedCount(b, []) == 0
  {
    if b != [] {
      MatchedAgainstEmpty(b[1..]);
    }
  }

  /** Prepending a gene `x` that `a` lacks to the partner list adds exactly x's own term. */
  lemma {:induction false} MatchedPrepend(b: seq<Connection>, x: Connection, a: seq<Connection>)
    requires UniqueInnovations(b)
    requires !HasInnovation(a, x.innovationNum)
    ensures MatchedWeightSum(b, [x] + a) == MatchedWeightSum(b, a) + WeightTerm(x, b)
    ensures MatchedCount(b, [x] + a) == MatchedCount(b, a) + CountTerm(x, b)
  {
    if b != [] {
      var y := b[0];
      assert UniqueInnovations(b[1..]);
      MatchedPrepend(b[1..], x, a);
      if y.innovationNum == x.innovationNum {
        assert !HasInnovation(b[1..], x.innovationNum);
        assert FirstWithInnovation(b, x.innovationNum) == Some(y);
        assert FirstWithInnovation([x] + a, y.innovationNum) == Some(x);
        assert FirstWithInnovation(a, y.innovationNum) == None;
        assert AbsReal(x.weight - y.weight) == AbsReal(y.weight - x.weight);
      } else {
        assert ([x] + a)[1..] == a;
      }
    }
  }

  /** With unique innovation numbers in both genomes, the matched sum and count are symmetric. */
  lemma {:induction false} MatchedSymmetric(a: seq<Connection>, b: seq<Connection>)
    requires UniqueInnovations(a) && UniqueInnovations(b)
    ensures MatchedWeightSum(a, b) == MatchedWeightSum(b, a)
    ensures MatchedCount(a, b) == MatchedCount(b, a)
  {
    if a == [] {
      MatchedAgainstEmpty(b);
    } else {
      assert UniqueInnovations(a[1..]);
      MatchedSymmetric(a[1..], b);
      assert !HasInnovation(a[1..], a[0].innovationNum);
      MatchedPrepend(b, a[0], a[1..]);
      assert [a[0]] + a[1..] == a;
    }
  }

  /** Each gene of a genome with unique innovation numbers is its own first partner. */
  lemma {:induction false} SelfWeightSumZero(a: seq<Connection>, i: nat)
    requires UniqueInnovations(a) && i <= |a|
    ensures MatchedWeightSum(a[i..], a) == 0.0
    decreases |a| - i
  {
    if i < |a| {
      SelfWeightSumZero(a, i + 1);
      FirstWithInnovationAt(a, a[i].innovationNum, i);
      assert a[i..][1..] == a[i + 1..];
    }
  }

  /** With unique innovation numbers within each genome, `distance` is symmetric. */
  lemma DistanceSymmetric(a: seq<Connection>, b: seq<Connection>, opts: BreedingOptions, threshold: Option<int>)
    requires UniqueInnovations(a) && UniqueInnovations(b)
    ensures CompatibilityDistance(a, b, opts, threshold) == CompatibilityDistance(b, a, opts, threshold)
  {
    MatchedSymmetric(a, b);
    DisjointSymmetric(a, b);
  }

  /** With unique innovation numbers, a genome is at distance 0 from itself. */
  lemma DistanceSelf(a: seq<Connection>, opts: BreedingOptions, threshold: Option<int>)
    requires UniqueInnovations(a)
    ensures CompatibilityDistance(a, a, opts, threshold) == 0.0
  {
    DisjointSelf(a);
    SelfWeightSumZero(a, 0);
    assert a[0..] == a;
  }

  /** Networks built by `addInitialNode` have unique innovation numbers, so their distance is symmetric. */
  lemma BuiltNetworksDistance(a: NeuralNet.Genome, na: int, b: NeuralNet.Genome, nb: int, opts: BreedingOptions, threshold: Option<int>)
    requires NeuralNet.Valid(a, na) && NeuralNet.Valid(b, nb)
    ensures CompatibilityDistance(a.connections, b.connections, opts, threshold)
         == CompatibilityDistance(b.connections, a.connections, opts, threshold)
    ensures CompatibilityDistance(a.connections, a.connections, opts, threshold) == 0.0
  {
    assert UniqueInnovations(a.connections);
    assert UniqueInnovations(b.connections);
    DistanceSymmetric(a.connections, b.connections, opts, threshold);
    DistanceSelf(a.connections, opts, threshold);
  }

  /**
   * With the default options, which carry no normalisation threshold, N is the larger connection
   * count and the distance is never negative.
   */
  lemma DefaultDistanceNonNegative(a: seq<Connection>, b: seq<Connection>)
    ensures MatchedCount(a, b) > 0 ==> Normalizer(a, b, None) == Max(|a|, |b|) >= 1
    ensures CompatibilityDistance(a, b, Defaults, None) >= 0.0
  {
    if MatchedCount(a, b) > 0 {
      NormalizerPositive(a, b, None);
    }
    DistanceNonNegative(a, b, Defaults, None);
  }

  // ----- the distance as it runs on networks built by `addConnection` -----

  /** Σ |g.weight - x.weight| over the genes x of `a`. */
  function WeightGapSum(a: seq<Connection>, g: Connection): (s: real)
    ensures s >= 0.0
  {
    if a == [] then 0.0 else AbsReal(g.weight - a[0].weight) + WeightGapSum(a[1..], g)
  }

  /**
   * `distance` on connection records as `addConnection` writes them: the number is stored under
   * `innovationNumber`, so every `gene.innovationNum` read here is undefined. No `undefined > m`
   * and no `undefined == i` holds, so both maxima stay 0 and E = D = 0; `undefined == undefined`
   * does hold, so every gene of `a` is matched with the first gene of `b`.
   */
  function DistanceAsWritten(a: seq<Connection>, b: seq<Connection>, opts: BreedingOptions, threshold: Option<int>): (d: real)
    ensures a == [] || b == [] ==> d == 0.0
  {
    if a == [] || b == [] then 0.0
    else Combine(opts, 0, 0, Normalizer(a, b, threshold), WeightGapSum(a, b[0]), |a|)
  }

  /**
   * A network with two genes of weights 0 and 1 is at distance 0.2 from itself under the default
   * options as written, where the intended distance (`DistanceSelf`) is 0.
   */
  lemma AsWrittenSelfDistanceNotZero()
    ensures var a := [Connection(0, 2, 0.0, true, 0), Connection(1, 2, 1.0, true, 1)];
      DistanceAsWritten(a, a, Defaults, None) == 0.2 && CompatibilityDistance(a, a, Defaults, None) == 0.0
  {
    var a := [Connection(0, 2, 0.0, true, 0), Connection(1, 2, 1.0, true, 1)];
    assert WeightGapSum(a, a[0]) == 1.0 by {
      assert a[1..][1..] == [];
    }
    DistanceSelf(a, Defaults, None);
  }
}
