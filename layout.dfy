/** The square layout of the target-position lookup texture.
    N particles are packed into an S x S texture with S = ceil(sqrt(N)),
    four floats (RGBA) per texel, particle i living in texel
    (col, row) = (i mod S, i div S). */
module TextureLayout {

  /** The least S with S * S >= n, searched upwards from s. */
  function SideFrom(n: nat, s: nat): (r: nat)
    requires s == 0 || (s - 1) * (s - 1) < n
    ensures s <= r
    ensures r * r >= n
    ensures r == 0 || (r - 1) * (r - 1) < n
    decreases n - s
  {
    if s * s >= n then s
    else
      assert s < n by {
        if s > 0 { assert s <= s * s; }
      }
      SideFrom(n, s + 1)
  }

  /** Math.ceil(Math.sqrt(n)): the least integer whose square reaches n. */
  function Side(n: nat): (s: nat)
    ensures s * s >= n
    ensures s == 0 || (s - 1) * (s - 1) < n
  {
    SideFrom(n, 0)
  }

  /** Number of floats in the lookup buffer: S * S texels of four channels. */
  function BufferLength(n: nat): (len: nat)
    ensures len >= 4 * n
  {
    Side(n) * Side(n) * 4
  }

  /** Texel column of particle i (instanceIndex.modInt(size)). */
  function Col(i: nat, s: nat): (c: nat)
    requires s > 0
    ensures c < s
  {
    i % s
  }

  /** Texel row of particle i (instanceIndex.div(size)). */
  function Row(i: nat, s: nat): (r: nat)
    requires s > 0
    ensures r * s <= i < r * s + s
  {
    i / s
  }

  /** Flat texel index that the shader's (col, row) lookup addresses. */
  function TexelIndex(i: nat, s: nat): (t: nat)
    requires s > 0
    ensures t == i
  {
    Row(i, s) * s + Col(i, s)
  }

  lemma MulMonotone(a: nat, b: nat)
    requires a <= b
    ensures a * a <= b * b
  {
    assert a * a <= a * b <= b * b;
  }

  lemma MulRight(a: nat, b: nat, c: nat)
    requires a <= b
    ensures a * c <= b * c
  {
  }

  /** Side(n) is the least side whose square covers n: no smaller square does. */
  lemma SideIsLeast(n: nat, t: nat)
    requires t * t >= n
    ensures Side(n) <= t
  {
    var s := Side(n);
    if t < s {
      MulMonotone(t, s - 1);
    }
  }

  /** The unused tail of the texture is small: S*S - N <= 2*S - 2 (so < 2*S). */
  lemma UnusedCellsBound(n: nat)
    requires n >= 1
    ensures Side(n) >= 1
    ensures Side(n) * Side(n) - n <= 2 * Side(n) - 2
  {
    var s: int := Side(n);
    assert (s - 1) * (s - 1) == s * s - 2 * s + 1;
  }

  /** One particle needs a 1 x 1 texture and sits in texel (0, 0). */
  lemma SingleParticle()
    ensures Side(1) == 1 && Col(0, 1) == 0 && Row(0, 1) == 0
  {
    assert SideFrom(1, 0) == SideFrom(1, 1);
  }

  /** Every particle i < n has a texel inside the S x S texture, the shader's
      (col, row) pair addresses exactly texel i, and all four channels of that
      texel are inside the S*S*4 buffer. */
  lemma CellInBounds(n: nat, i: nat)
    requires i < n
    ensures Side(n) > 0
    ensures Col(i, Side(n)) < Side(n) && Row(i, Side(n)) < Side(n)
    ensures Row(i, Side(n)) * Side(n) + Col(i, Side(n)) == i
    ensures 4 * i + 3 < BufferLength(n)
  {
    var s := Side(n);
    assert s > 0;
    var r := i / s;
    assert r * s <= i;
    if r >= s {
      MulRight(s, r, s);
    }
    assert i + 1 <= s * s;
  }
}
