/** The per-frame driver: it runs the update pass, then moves the live emissive
    intensity uniform toward the selected model's preset (or toward the control
    value in debug mode) by a lerp with rate delta. */
module Driver {
  import ParticleSim
  import TargetSampler

  /** The options of the currentGeometry control. */
  datatype ModelName = Docker | Three | HTML | React | Github

  /** One entry of MODEL_COLORS. */
  datatype Preset = Preset(start: string, end: string, emissiveIntensity: real)

  /** MODEL_COLORS. */
  function ModelColors(m: ModelName): (p: Preset)
    ensures 0.001 <= p.emissiveIntensity <= 0.1
    ensures |p.start| == 7 && |p.end| == 7 && p.start[0] == '#' && p.end[0] == '#'
  {
    match m
    case Docker => Preset("#00ff49", "#0040ff", 0.01)
    case Three => Preset("#00bcd4", "#202020", 0.08)
    case HTML => Preset("#ff7300", "#0091ff", 0.1)
    case React => Preset("#5945ce", "#bbafff", 0.001)
    case Github => Preset("#00FFAA", "#FF6A00", 0.001)
  }

  /** The values of the user controls read each frame. */
  datatype Controls = Controls(
    currentGeometry: ModelName,
    startColor: string,
    endColor: string,
    debugColor: bool,
    emissiveIntensity: real)

  /** The controls' initial values. */
  const DefaultControls := Controls(Docker, "#00ffcc", "#9900ff", false, 0.1)

  /** At mount the uniform holds the control default 0.1, and the first frame
      pulls it toward the Docker preset 0.01. */
  lemma DefaultStart()
    ensures DefaultControls.emissiveIntensity == 0.1
    ensures EmissiveTarget(DefaultControls) == ModelColors(Docker).emissiveIntensity == 0.01
  {
  }

  /** The intensity the live uniform is pulled toward this frame. */
  function EmissiveTarget(c: Controls): (r: real)
    ensures c.debugColor ==> r == c.emissiveIntensity
    ensures !c.debugColor ==> 0.001 <= r <= 0.1
  {
    if c.debugColor then c.emissiveIntensity else ModelColors(c.currentGeometry).emissiveIntensity
  }

  /** MathUtils.lerp(x, y, t) = (1 - t) * x + t * y. */
  function Lerp(x: real, y: real, t: real): (r: real)
    ensures t == 0.0 ==> r == x
    ensures t == 1.0 ==> r == y
  {
    (1.0 - t) * x + t * y
  }

  function Abs(x: real): real
  {
    if x < 0.0 then -x else x
  }

  /** With t in [0, 1] the lerp lies between its two ends, its distance to the
      target is the old distance times (1 - t), and at the target it stays put. */
  lemma LerpBetween(x: real, y: real, t: real)
    requires 0.0 <= t <= 1.0
    ensures x <= y ==> x <= Lerp(x, y, t) <= y
    ensures y <= x ==> y <= Lerp(x, y, t) <= x
    ensures Lerp(x, y, t) - y == (1.0 - t) * (x - y)
    ensures Abs(Lerp(x, y, t) - y) <= Abs(x - y)
    ensures x == y ==> Lerp(x, y, t) == y
  {
    var u := 1.0 - t;
    var w := x - y;
    assert Lerp(x, y, t) - y == u * w;
    assert Lerp(x, y, t) - x == -(t * w);
    MulBounds(u, w);
    MulBounds(t, w);
  }

  /** For c in [0, 1], c * w lies between 0 and w. */
  lemma MulBounds(c: real, w: real)
    requires 0.0 <= c <= 1.0
    ensures w >= 0.0 ==> 0.0 <= c * w <= w
    ensures w <= 0.0 ==> w <= c * w <= 0.0
  {
    var d := 1.0 - c;
    if w >= 0.0 {
      assert d * w >= 0.0 && c * w >= 0.0;
    } else {
      assert d * (-w) >= 0.0 && c * (-w) >= 0.0;
    }
  }

  /** The live appearance uniform this model keeps: emissiveIntensity. */
  class Uniforms {
    var emissiveIntensity: real

    /** uniform(emissiveIntensity): created from the control value at mount. */
    constructor (c: Controls)
      ensures emissiveIntensity == c.emissiveIntensity
    {
      emissiveIntensity := c.emissiveIntensity;
    }

    /** The emissive part of the frame callback: lerp toward this frame's target. */
    method BlendEmissive(c: Controls, delta: real)
      modifies this
      ensures emissiveIntensity == Lerp(old(emissiveIntensity), EmissiveTarget(c), delta)
      ensures 0.0 <= delta <= 1.0 ==>
        Abs(emissiveIntensity - EmissiveTarget(c)) <= Abs(old(emissiveIntensity) - EmissiveTarget(c))
      ensures old(emissiveIntensity) == EmissiveTarget(c) ==> emissiveIntensity == old(emissiveIntensity)
    {
      var target := EmissiveTarget(c);
      if 0.0 <= delta <= 1.0 {
        LerpBetween(emissiveIntensity, target, delta);
      }
      emissiveIntensity := Lerp(emissiveIntensity, target, delta);
    }
  }

  /** One frame: dispatch the update pass with the frame time, then blend the
      emissive uniform. */
  method Frame(store: ParticleSim.ParticleStore, targets: TargetSampler.TargetMap,
               uniforms: Uniforms, c: Controls, delta: real)
    requires store.Valid() && targets.Valid() && targets.count == store.n
    requires targets.data != store.age
    modifies store.spawnPosition, store.offsetPosition, store.age, uniforms
    ensures forall i | 0 <= i < store.n ::
      store.At(i) == ParticleSim.StepParticle(store.fx, i, old(store.At(i)),
                       TargetSampler.ShaderTarget(targets.data[..], store.n, i), delta)
    ensures delta >= 0.0 && old(store.AgesBounded()) ==> store.AgesBounded()
    ensures uniforms.emissiveIntensity == Lerp(old(uniforms.emissiveIntensity), EmissiveTarget(c), delta)
  {
    store.ComputeUpdate(targets, delta);
    uniforms.BlendEmissive(c, delta);
  }

  /** A model switch rebuilds the target texture from the new geometry list and
      leaves every particle's spawn position, offset and age as they were. */
  method SwitchModel(store: ParticleSim.ParticleStore, targets: TargetSampler.TargetMap,
                     geometries: seq<TargetSampler.Geometry>, gs: seq<nat>, vs: seq<nat>)
    requires store.Valid() && targets.Valid() && targets.count == store.n
    requires targets.data != store.age
    requires TargetSampler.ValidDraws(geometries, targets.count, gs, vs)
    modifies targets, targets.data
    ensures targets.Valid()
    ensures forall i | 0 <= i < store.n :: store.At(i) == old(store.At(i))
    ensures targets.needsUpdate == (|geometries| > 0 || old(targets.needsUpdate))
    ensures |geometries| == 0 ==> targets.data[..] == old(targets.data[..])
    ensures |geometries| > 0 ==>
      forall i | 0 <= i < targets.count ::
        TargetSampler.CellAt(targets.data[..], i) == TargetSampler.VertexTexel(geometries[gs[i]], vs[i])
    ensures targets.data[4 * targets.count..] == old(targets.data[4 * targets.count..])
    ensures |geometries| > 0 ==> TargetSampler.SampledFrom(targets.data[..], targets.count, geometries)
  {
    targets.Refill(geometries, gs, vs);
  }
}
