/** Per-particle pseudo-randomness: randValue over TSL's hash. */
module HashRandom {

  /** The range TSL's hash promises: a float in [0, 1). */
  type UnitReal = r: real | 0.0 <= r < 1.0 witness 0.0

  /** TSL's hash node, a foreign function of one integer. */
  type Hash = nat -> UnitReal

  /** randValue({min, max, seed}) for particle i:
      hash(instanceIndex + seed) * (max - min) + min. */
  function RandValue(hash: Hash, i: nat, min: real, max: real, seed: nat): (r: real)
    ensures min < max ==> min <= r < max
    ensures min == max ==> r == min
    ensures max < min ==> max < r <= min
  {
    var h: real := hash(i + seed);
    var w := max - min;
    MulBelowOne(h, w);
    h * w + min
  }

  /** h * w lies between 0 and w (strictly short of w unless w is 0). */
  lemma MulBelowOne(h: real, w: real)
    requires 0.0 <= h < 1.0
    ensures w > 0.0 ==> 0.0 <= h * w < w
    ensures w < 0.0 ==> w < h * w <= 0.0
  {
    if w > 0.0 {
      assert (1.0 - h) * w > 0.0;
    } else if w < 0.0 {
      assert (1.0 - h) * (-w) > 0.0;
    }
  }

  /** The seed is added to the index rather than used as a separate key: shifting
      the index by k is the same as shifting the seed by k. */
  lemma SeedShift(hash: Hash, i: nat, k: nat, min: real, max: real, seed: nat)
    ensures RandValue(hash, i + k, min, max, seed) == RandValue(hash, i, min, max, seed + k)
  {
  }

  /** The value depends on i and seed only through i + seed. */
  lemma DependsOnSum(hash: Hash, i: nat, j: nat, min: real, max: real, s: nat, t: nat)
    requires i + s == j + t
    ensures RandValue(hash, i, min, max, s) == RandValue(hash, j, min, max, t)
  {
  }
}
