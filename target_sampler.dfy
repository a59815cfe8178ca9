/** The target-position lookup texture: a flat Float32Array of S*S*4 floats
    (RGBA per texel) that holds, for every particle, the position of a vertex
    of the selected model. */
module TargetSampler {
  import opened Vectors
  import opened TextureLayout

  /** One RGBA texel of the lookup texture. */
  datatype Texel = Texel(r: real, g: real, b: real, a: real)

  /** The value the creation loop writes for every particle: (0, 0, 0, 1). */
  const DefaultTexel := Texel(0.0, 0.0, 0.0, 1.0)

  /** The four floats of texel i in a flat RGBA buffer. */
  function CellAt(d: seq<real>, i: nat): Texel
    requires 4 * i + 3 < |d|
  {
    Texel(d[4 * i], d[4 * i + 1], d[4 * i + 2], d[4 * i + 3])
  }

  /** A mesh geometry as the sampler sees it: the flat xyz array of its
      position attribute. */
  datatype Geometry = Geometry(position: seq<real>) {
    /** BufferAttribute.count: the number of complete xyz triplets. */
    function Count(): (c: nat)
      ensures 3 * c <= |position| < 3 * c + 3
    {
      |position| / 3
    }
  }

  /** The texel the fill loop writes for vertex v of geometry g: its xyz and w = 1. */
  function VertexTexel(g: Geometry, v: nat): (t: Texel)
    requires v < g.Count()
    ensures t.a == 1.0
  {
    Texel(g.position[3 * v], g.position[3 * v + 1], g.position[3 * v + 2], 1.0)
  }

  /** The two randInt draws of the fill loop, one pair per particle: gs[i] in
      [0, |geometries| - 1] and vs[i] in [0, count(gs[i]) - 1]. When there is no
      geometry the loop does not run and the draws are not looked at. */
  predicate ValidDraws(geometries: seq<Geometry>, n: nat, gs: seq<nat>, vs: seq<nat>)
  {
    |gs| == n && |vs| == n &&
    (|geometries| > 0 ==>
      forall i | 0 <= i < n :: gs[i] < |geometries| && vs[i] < geometries[gs[i]].Count())
  }

  /** t is the texel of some vertex of some geometry of the list. */
  ghost predicate IsVertexOf(t: Texel, geometries: seq<Geometry>)
  {
    exists g: nat, v: nat | g < |geometries| && v < geometries[g].Count() ::
      t == VertexTexel(geometries[g], v)
  }

  /** Every particle's texel holds some vertex of some geometry of the list. */
  ghost predicate SampledFrom(d: seq<real>, n: nat, geometries: seq<Geometry>)
    requires 4 * n <= |d|
  {
    forall i | 0 <= i < n :: IsVertexOf(CellAt(d, i), geometries)
  }

  /** Cells filled by valid draws hold vertices of the geometry list. */
  lemma DrawsAreSamples(d: seq<real>, n: nat, geometries: seq<Geometry>, gs: seq<nat>, vs: seq<nat>)
    requires 4 * n <= |d| && |geometries| > 0 && ValidDraws(geometries, n, gs, vs)
    requires forall i | 0 <= i < n :: CellAt(d, i) == VertexTexel(geometries[gs[i]], vs[i])
    ensures SampledFrom(d, n, geometries)
  {
    forall i | 0 <= i < n
      ensures IsVertexOf(CellAt(d, i), geometries)
    {
      var g, v := gs[i], vs[i];
      assert CellAt(d, i) == VertexTexel(geometries[g], v);
    }
  }

  /** The shader's lookup of particle i's target: texel (i mod S, i div S) of the
      S x S texture, read back as xyz. It is the texel the CPU wrote for i. */
  function ShaderTarget(d: seq<real>, n: nat, i: nat): (p: Vec3)
    requires |d| == BufferLength(n) && i < n
    ensures p == Vec3(CellAt(d, i).r, CellAt(d, i).g, CellAt(d, i).b)
  {
    CellInBounds(n, i);
    var s := Side(n);
    var t := Row(i, s) * s + Col(i, s);
    Vec3(d[4 * t], d[4 * t + 1], d[4 * t + 2])
  }

  /** targetPositionsTexture: the DataTexture and its image data. */
  class TargetMap {
    /** nbParticles. */
    const count: nat
    /** size = Math.ceil(Math.sqrt(nbParticles)). */
    const size: nat
    /** image.data. */
    const data: array<real>
    var needsUpdate: bool

    ghost predicate Valid()
    {
      size == Side(count) && data.Length == BufferLength(count)
    }

    /** Every particle's texel has w = 1. */
    ghost predicate ParticleCellsOpaque()
      reads data
      requires Valid()
    {
      forall i | 0 <= i < count :: CellAt(data[..], i).a == 1.0
    }

    /** The floats past the last particle keep the Float32Array default 0. */
    ghost predicate TailZero()
      reads data
      requires Valid()
    {
      forall j | 4 * count <= j < data.Length :: data[j] == 0.0
    }

    /** Creates the texture for nbParticles particles: a zeroed S*S*4 buffer whose
        first nbParticles texels are set to (0, 0, 0, 1). */
    constructor (nbParticles: nat)
      ensures Valid() && count == nbParticles && fresh(data)
      ensures forall i | 0 <= i < count :: CellAt(data[..], i) == DefaultTexel
      ensures TailZero() && ParticleCellsOpaque()
      ensures !needsUpdate
    {
      count := nbParticles;
      size := Side(nbParticles);
      var buffer := new real[BufferLength(nbParticles)](_ => 0.0);
      var i := 0;
      while i < nbParticles
        invariant 0 <= i <= nbParticles
        invariant forall j | 0 <= j < i :: CellAt(buffer[..], j) == DefaultTexel
        invariant forall j | 4 * i <= j < buffer.Length :: buffer[j] == 0.0
      {
        CellInBounds(nbParticles, i);
        ghost var before := buffer[..];
        buffer[i * 4 + 0] := 0.0;
        buffer[i * 4 + 1] := 0.0;
        buffer[i * 4 + 2] := 0.0;
        buffer[i * 4 + 3] := 1.0;
        assert CellAt(buffer[..], i) == DefaultTexel;
        assert forall j | 0 <= j < i :: CellAt(buffer[..], j) == CellAt(before, j);
        i := i + 1;
      }
      data := buffer;
      needsUpdate := false;
    }

    /** The effect run when the geometry list changes. With no geometry it
        returns at once; otherwise every particle's texel gets the vertex chosen
        by the draws, with w = 1, the floats past the last particle are left
        alone, and the texture is flagged for upload. */
    method Refill(geometries: seq<Geometry>, gs: seq<nat>, vs: seq<nat>)
      requires Valid()
      requires ValidDraws(geometries, count, gs, vs)
      modifies this, data
      ensures Valid() && needsUpdate == (|geometries| > 0 || old(needsUpdate))
      ensures |geometries| == 0 ==> data[..] == old(data[..])
      ensures |geometries| > 0 ==>
        forall i | 0 <= i < count :: CellAt(data[..], i) == VertexTexel(geometries[gs[i]], vs[i])
      ensures data[4 * count..] == old(data[4 * count..])
      ensures |geometries| > 0 ==> SampledFrom(data[..], count, geometries)
      ensures old(TailZero()) ==> TailZero()
      ensures old(ParticleCellsOpaque()) ==> ParticleCellsOpaque()
    {
      if |geometries| == 0 {
        return;
      }
      var i := 0;
      while i < count
        invariant 0 <= i <= count
        invariant forall j | 0 <= j < i :: CellAt(data[..], j) == VertexTexel(geometries[gs[j]], vs[j])
        invariant data[4 * i..] == old(data[4 * i..])
      {
        CellInBounds(count, i);
        var g := geometries[gs[i]];
        var v := vs[i];
        data[i * 4 + 0] := g.position[v * 3 + 0];
        data[i * 4 + 1] := g.position[v * 3 + 1];
        data[i * 4 + 2] := g.position[v * 3 + 2];
        data[i * 4 + 3] := 1.0;
        assert CellAt(data[..], i) == VertexTexel(g, v);
        i := i + 1;
      }
      needsUpdate := true;
      DrawsAreSamples(data[..], count, geometries, gs, vs);
    }
  }
}
