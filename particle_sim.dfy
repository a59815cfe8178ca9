/** The per-particle simulation: the storage buffers spawnPosition,
    offsetPosition and age, the one-shot init pass and the per-frame update
    pass. The GPU runs each particle independently; here a pass is a loop over
    particle indices whose iteration i touches slot i only. */
module ParticleSim {
  import opened Vectors
  import opened HashRandom
  import TextureLayout
  import TargetSampler

  /** The range of a vector length. */
  type NonNegReal = r: real | r >= 0.0 witness 0.0

  /** The foreign TSL functions the passes call: hash, mx_fractal_noise_vec3 and
      the vector length used by length() and normalize(). */
  datatype Foreign = Foreign(hash: Hash, noise: Vec3 -> Vec3, length: Vec3 -> NonNegReal)

  /** The state of one particle across the three storage buffers. */
  datatype Particle = Particle(spawn: Vec3, offset: Vec3, age: real)

  /** lifetime = randValue({min: 0.1, max: 6, seed: 13}). */
  function Lifetime(hash: Hash, i: nat): (r: real)
    ensures 0.1 <= r < 6.0
  {
    RandValue(hash, i, 0.1, 6.0, 13)
  }

  /** instanceSpeed = randValue({min: 0.01, max: 0.05, seed: 12}). */
  function InstanceSpeed(hash: Hash, i: nat): (r: real)
    ensures 0.01 <= r < 0.05
  {
    RandValue(hash, i, 0.01, 0.05, 12)
  }

  /** offsetSpeed = randValue({min: 0.1, max: 0.5, seed: 14}). */
  function OffsetSpeed(hash: Hash, i: nat): (r: real)
    ensures 0.1 <= r < 0.5
  {
    RandValue(hash, i, 0.1, 0.5, 14)
  }

  /** The spawn position computeInit assigns: three randValues in [-3, 3)
      with seeds 0, 1 and 2. */
  function InitialSpawn(hash: Hash, i: nat): (v: Vec3)
    ensures InBox(v, -3.0, 3.0)
  {
    Vec3(RandValue(hash, i, -3.0, 3.0, 0),
         RandValue(hash, i, -3.0, 3.0, 1),
         RandValue(hash, i, -3.0, 3.0, 2))
  }

  /** The age computeInit assigns: randValue({min: 0, max: lifetime, seed: 11}). */
  function InitialAge(hash: Hash, i: nat): (a: real)
    ensures 0.0 <= a < Lifetime(hash, i)
  {
    RandValue(hash, i, 0.0, Lifetime(hash, i), 11)
  }

  /** What computeInit leaves in particle i's slots. */
  function InitialParticle(hash: Hash, i: nat): (p: Particle)
    ensures p.offset == Zero
    ensures InBox(p.spawn, -3.0, 3.0)
    ensures 0.0 <= p.age < Lifetime(hash, i)
  {
    Particle(InitialSpawn(hash, i), Zero, InitialAge(hash, i))
  }

  /** Distance below which a particle counts as arrived (the 0.01 of the If). */
  const ArriveRadius := 0.01

  function Min(a: real, b: real): real
  {
    if a <= b then a else b
  }

  /** The move step: when the target is farther than ArriveRadius, add
      normalize(d) * min(speed, |d|) to the spawn position, d = target - spawn. */
  function MoveToward(spawn: Vec3, target: Vec3, speed: real, length: Vec3 -> NonNegReal): (r: Vec3)
    ensures length(Sub(target, spawn)) <= ArriveRadius ==> r == spawn
    ensures var l := length(Sub(target, spawn));
      l > ArriveRadius ==> Sub(r, spawn) == Scale(Sub(target, spawn), Min(speed, l) / l)
  {
    var d := Sub(target, spawn);
    var l := length(d);
    if l > ArriveRadius then
      var m := Min(speed, l);
      var r := Add(spawn, Scale(Scale(d, 1.0 / l), m));
      assert d.x * (1.0 / l) * m == d.x * (m / l);
      assert d.y * (1.0 / l) * m == d.y * (m / l);
      assert d.z * (1.0 / l) * m == d.z * (m / l);
      r
    else spawn
  }

  /** One particle's computeUpdate, in the source's order: move, add the noise
      drift (sampled at the moved spawn position times the not yet advanced age),
      advance the age, then recycle age and offset when past the lifetime. */
  function StepParticle(fx: Foreign, i: nat, p: Particle, target: Vec3, dt: real): (q: Particle)
    ensures (q.age == 0.0 && q.offset == Zero) || q.age == p.age + dt
  {
    var spawn := MoveToward(p.spawn, target, InstanceSpeed(fx.hash, i), fx.length);
    var offset := Add(p.offset, Scale(Scale(fx.noise(Scale(spawn, p.age)), OffsetSpeed(fx.hash, i)), dt));
    var age := p.age + dt;
    if age > Lifetime(fx.hash, i) then Particle(spawn, Zero, 0.0)
    else Particle(spawn, offset, age)
  }

  /** The fraction of the remaining vector still left after a move step. */
  function RemainingFactor(speed: real, l: real): (f: real)
    requires speed > 0.0 && l > 0.0
    ensures 0.0 <= f < 1.0
  {
    assert Min(speed, l) / l <= 1.0 by { DivAtMostOne(Min(speed, l), l); }
    1.0 - Min(speed, l) / l
  }

  lemma DivAtMostOne(a: real, l: real)
    requires 0.0 < a <= l
    ensures 0.0 < a / l <= 1.0
  {
    assert a / l * l == a;
  }

  /** A move step never passes the target: the new remaining vector is the old
      one scaled by a factor in [0, 1). Within ArriveRadius the particle stays. */
  lemma NoOvershoot(spawn: Vec3, target: Vec3, speed: real, length: Vec3 -> NonNegReal)
    requires speed > 0.0
    ensures var d := Sub(target, spawn);
      if length(d) > ArriveRadius then
        Sub(target, MoveToward(spawn, target, speed, length)) == Scale(d, RemainingFactor(speed, length(d)))
      else
        MoveToward(spawn, target, speed, length) == spawn
  {
    var d := Sub(target, spawn);
    var l := length(d);
    if l > ArriveRadius {
      var m := Min(speed, l);
      var f := RemainingFactor(speed, l);
      assert f == 1.0 - m / l;
      var moved := MoveToward(spawn, target, speed, length);
      assert Sub(moved, spawn) == Scale(d, m / l);
      assert target.x - moved.x == d.x * f;
      assert target.y - moved.y == d.y * f;
      assert target.z - moved.z == d.z * f;
    }
  }

  /** The update step keeps 0 <= age <= lifetime for a non-negative frame time. */
  lemma StepKeepsAgeBounded(fx: Foreign, i: nat, p: Particle, target: Vec3, dt: real)
    requires 0.0 <= p.age <= Lifetime(fx.hash, i) && dt >= 0.0
    ensures 0.0 <= StepParticle(fx, i, p, target, dt).age <= Lifetime(fx.hash, i)
  {
  }

  /** A recycle resets age and offset to zero and leaves the moved spawn position
      as it is; without a recycle the age advances by dt and the offset gains the
      noise drift taken at the moved position and the old age. */
  lemma StepRecycles(fx: Foreign, i: nat, p: Particle, target: Vec3, dt: real)
    ensures var q := StepParticle(fx, i, p, target, dt);
      var moved := MoveToward(p.spawn, target, InstanceSpeed(fx.hash, i), fx.length);
      q.spawn == moved &&
      (p.age + dt > Lifetime(fx.hash, i) ==> q.age == 0.0 && q.offset == Zero) &&
      (p.age + dt <= Lifetime(fx.hash, i) ==>
        q.age == p.age + dt &&
        q.offset == Add(p.offset, Scale(Scale(fx.noise(Scale(moved, p.age)), OffsetSpeed(fx.hash, i)), dt)))
  {
  }

  /** Any frame time of 6 or more recycles a particle of non-negative age, since
      every lifetime is below 6. */
  lemma LongFrameRecycles(fx: Foreign, i: nat, p: Particle, target: Vec3, dt: real)
    requires p.age >= 0.0 && dt >= 6.0
    ensures StepParticle(fx, i, p, target, dt).age == 0.0
    ensures StepParticle(fx, i, p, target, dt).offset == Zero
  {
  }

  /** The three storage buffers (instancedArray) of nbParticles slots each. */
  class ParticleStore {
    const n: nat
    const fx: Foreign
    const spawnPosition: array<Vec3>
    const offsetPosition: array<Vec3>
    const age: array<real>

    ghost predicate Valid()
    {
      spawnPosition.Length == n && offsetPosition.Length == n && age.Length == n &&
      spawnPosition != offsetPosition
    }

    /** Particle i read across the three buffers. */
    ghost function At(i: nat): Particle
      reads spawnPosition, offsetPosition, age
      requires Valid() && i < n
    {
      Particle(spawnPosition[i], offsetPosition[i], age[i])
    }

    /** The age invariant: 0 <= age(i) <= lifetime(i) for every particle. */
    ghost predicate AgesBounded()
      reads age
      requires Valid()
    {
      forall i | 0 <= i < n :: 0.0 <= age[i] <= Lifetime(fx.hash, i)
    }

    /** Allocates the zero-filled buffers. */
    constructor (nbParticles: nat, foreign: Foreign)
      ensures Valid() && n == nbParticles && fx == foreign
      ensures fresh(spawnPosition) && fresh(offsetPosition) && fresh(age)
      ensures forall i | 0 <= i < n :: At(i) == Particle(Zero, Zero, 0.0)
    {
      n := nbParticles;
      fx := foreign;
      spawnPosition := new Vec3[nbParticles](_ => Zero);
      offsetPosition := new Vec3[nbParticles](_ => Zero);
      age := new real[nbParticles](_ => 0.0);
    }

    /** computeInit: seeds every particle from its hashes; the result does not
        depend on the previous contents, so running it twice gives the same state. */
    method ComputeInit()
      requires Valid()
      modifies spawnPosition, offsetPosition, age
      ensures forall i | 0 <= i < n :: At(i) == InitialParticle(fx.hash, i)
      ensures AgesBounded()
    {
      var i := 0;
      while i < n
        invariant 0 <= i <= n
        invariant forall j | 0 <= j < i :: At(j) == InitialParticle(fx.hash, j)
        invariant forall j | 0 <= j < i :: 0.0 <= age[j] <= Lifetime(fx.hash, j)
      {
        spawnPosition[i] := InitialSpawn(fx.hash, i);
        offsetPosition[i] := Zero;
        age[i] := InitialAge(fx.hash, i);
        i := i + 1;
      }
    }

    /** computeUpdate for a frame of dt seconds: every particle takes one step
        toward its target, read from the lookup texture through (col, row). */
    method ComputeUpdate(targets: TargetSampler.TargetMap, dt: real)
      requires Valid() && targets.Valid() && targets.count == n
      requires targets.data != age
      modifies spawnPosition, offsetPosition, age
      ensures forall i | 0 <= i < n ::
        At(i) == StepParticle(fx, i, old(At(i)), TargetSampler.ShaderTarget(targets.data[..], n, i), dt)
      ensures dt >= 0.0 && old(AgesBounded()) ==> AgesBounded()
    {
      var i := 0;
      while i < n
        invariant 0 <= i <= n
        invariant forall j | 0 <= j < i ::
          At(j) == StepParticle(fx, j, old(At(j)), TargetSampler.ShaderTarget(targets.data[..], n, j), dt)
        invariant forall j | i <= j < n :: At(j) == old(At(j))
      {
        var target := TargetSampler.ShaderTarget(targets.data[..], n, i);
        var q := StepParticle(fx, i, Particle(spawnPosition[i], offsetPosition[i], age[i]), target, dt);
        spawnPosition[i] := q.spawn;
        offsetPosition[i] := q.offset;
        age[i] := q.age;
        i := i + 1;
      }
      if dt >= 0.0 && old(AgesBounded()) {
        forall i | 0 <= i < n
          ensures 0.0 <= age[i] <= Lifetime(fx.hash, i)
        {
          assert 0.0 <= old(At(i)).age <= Lifetime(fx.hash, i);
          StepKeepsAgeBounded(fx, i, old(At(i)), TargetSampler.ShaderTarget(targets.data[..], n, i), dt);
        }
      }
    }
  }
}
