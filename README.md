# GPGPU particle morphing: a Dafny model

This project models the simulation core of a React Three Fiber scene. In that scene, up to a million particles morph between the silhouettes of five 3D logos (Docker, Three.js, HTML, React, GitHub). The model covers these parts:

- **Target-position texture** (`TextureLayout`, `TargetSampler`).
  - A flat `Float32Array` of `S*S*4` floats, with `S = ceil(sqrt(N))`.
  - It is created with `(0,0,0,1)` for each of the N particles and zeros after them.
  - When the geometry list changes, it is refilled from the two `randInt` draws. Each particle gets the xyz of one vertex of one geometry, with w = 1.
  - The shader reads it back through `(i mod S, i div S)`.
- **Per-particle state** (`ParticleSim`).
  - Three storage buffers: spawn position, offset position and age.
  - `computeInit` seeds them from the hash-based `randValue`.
  - `computeUpdate` runs each frame. It moves each particle toward its target with a `min(speed, |d|)` clamp, adds noise drift, advances the age, and recycles the particle once it is past its lifetime.
  - The GPU dispatch becomes a sequential loop whose iteration i touches slot i only.
- **Driver loop** (`Driver`).
  - Picks the emissive target: the `MODEL_COLORS` preset of the selected model, or the control value in debug mode.
  - Lerps the live uniform toward that target by the frame's `delta`.
  - Composes a frame from the update pass and this blend.
  - A model switch rebuilds only the texture.
- **Asset path** (`Item`). The model name gets `.glb` or `.glft` appended, as written: the doubled `.glb` and the `.glft` spelling are kept. The result is loaded from `/models/`.

Numbers are `real`. Foreign functions are parameters: TSL's `hash`, `mx_fractal_noise_vec3` and the vector `length` are fields of `ParticleSim.Foreign`. The only assumptions on them are built into their types: `hash` returns a value in [0, 1) and `length` returns a value ≥ 0.

Some behaviours of the code differ from what its comments suggest; the model follows the code:

- The comment at `src/components/GPGPUParticles.jsx:156` says the buffer holds `(0,0,0,1)`. Only the first N texels get that value, from the loop at `:158-163`. Texels after the last particle keep the typed-array default `(0,0,0,0)`.
- The comment at `:49` says randValue is "based on a seed". The code at `:81` adds the seed to the particle index instead of keying on the pair. So particle i's value under seed s+1 equals particle i+1's value under seed s (`HashRandom.SeedShift`). For example, the y of one particle's initial spawn position is the x of the next particle's.

Two further facts of the code that the model keeps:

- The fill loop at `:174-193` does not skip a geometry without vertices.
- `randValue` at `:81` lies in `[min, max)`, a half-open interval.

## Model

| member | source | states |
|---|---|---|
| TextureLayout.SideFrom | src/components/GPGPUParticles.jsx:155 | searching up from s finds a side whose square covers n and whose predecessor's square does not |
| TextureLayout.Side | src/components/GPGPUParticles.jsx:155 | `ceil(sqrt(n))`: S*S >= n and (S-1)*(S-1) < n |
| TextureLayout.SideIsLeast | src/components/GPGPUParticles.jsx:155 | no side smaller than S covers n particles |
| TextureLayout.UnusedCellsBound | src/components/GPGPUParticles.jsx:155-156 | for n >= 1 the unused texels number at most 2S-2 |
| TextureLayout.BufferLength | src/components/GPGPUParticles.jsx:156 | the `S*S*4` buffer holds at least 4 floats per particle |
| TextureLayout.Col | src/components/GPGPUParticles.jsx:257 | the column `i mod S` is below S |
| TextureLayout.Row | src/components/GPGPUParticles.jsx:258 | the row `i div S` is the r with r*S <= i < r*S + S |
| TextureLayout.TexelIndex | src/components/GPGPUParticles.jsx:257-258 | row*S + col addresses exactly particle i |
| TextureLayout.CellInBounds | src/components/GPGPUParticles.jsx:254-259 | for i < N: col < S, row < S, row*S+col == i, and all four writes `4i+k` are inside the buffer |
| TextureLayout.SingleParticle | src/components/GPGPUParticles.jsx:254-258 | one particle gives a 1x1 texture and texel (0,0) |
| HashRandom.RandValue | src/components/GPGPUParticles.jsx:80-82 | the value lies in [min, max) when min < max, equals min when min == max, and lies in (max, min] otherwise |
| HashRandom.SeedShift | src/components/GPGPUParticles.jsx:81 | shifting the index by k equals shifting the seed by k |
| HashRandom.DependsOnSum | src/components/GPGPUParticles.jsx:81 | the value depends only on index + seed |
| TargetSampler.Geometry.Count | src/components/GPGPUParticles.jsx:178 | the vertex count is the number of whole xyz triplets in the position array, so `3v+2` is in range for every v < count |
| TargetSampler.VertexTexel | src/components/GPGPUParticles.jsx:180-192 | the texel written for a vertex has w = 1 |
| TargetSampler.DrawsAreSamples | src/components/GPGPUParticles.jsx:174-193 | texels filled from in-range draws each hold a vertex of some geometry of the list |
| TargetSampler.ShaderTarget | src/components/GPGPUParticles.jsx:254-264 | the shader's (col, row) lookup returns the xyz the CPU wrote into texel i |
| TargetSampler.TargetMap.constructor | src/components/GPGPUParticles.jsx:154-167 | the buffer has S*S*4 zeroed floats, texels i < N are (0,0,0,1), floats from 4N on are 0, and no upload is flagged |
| TargetSampler.TargetMap.Refill | src/components/GPGPUParticles.jsx:172-196 | an empty list changes nothing (data and flag). Otherwise texel i is vertex vs[i] of geometry gs[i] with w = 1, floats from 4N on are untouched, `needsUpdate` is set, and w = 1 and the zero tail are preserved |
| ParticleSim.Lifetime | src/components/GPGPUParticles.jsx:226 | lifetime lies in [0.1, 6) |
| ParticleSim.InstanceSpeed | src/components/GPGPUParticles.jsx:249 | speed lies in [0.01, 0.05) |
| ParticleSim.OffsetSpeed | src/components/GPGPUParticles.jsx:270 | offset speed lies in [0.1, 0.5) |
| ParticleSim.InitialSpawn | src/components/GPGPUParticles.jsx:230-236 | each initial coordinate lies in [-3, 3) |
| ParticleSim.InitialAge | src/components/GPGPUParticles.jsx:238 | the initial age lies in [0, lifetime(i)) |
| ParticleSim.InitialParticle | src/components/GPGPUParticles.jsx:229-238 | an initial particle has zero offset, a spawn position inside the box [-3, 3) and an age in [0, lifetime(i)) |
| ParticleSim.MoveToward | src/components/GPGPUParticles.jsx:274-283 | within 0.01 of the target the position is unchanged. Beyond it the position moves along d = target - spawn by the fraction min(speed, length(d)) / length(d) of d |
| ParticleSim.StepParticle | src/components/GPGPUParticles.jsx:272-305 | after one step the particle is either recycled (age 0, zero offset) or its age has grown by exactly dt |
| ParticleSim.RemainingFactor | src/components/GPGPUParticles.jsx:276-282 | `1 - min(speed, l)/l` lies in [0, 1) |
| ParticleSim.NoOvershoot | src/components/GPGPUParticles.jsx:274-283 | beyond 0.01 the new remaining vector is the old one scaled by a factor in [0, 1). Within 0.01 the spawn position is unchanged |
| ParticleSim.StepKeepsAgeBounded | src/components/GPGPUParticles.jsx:296-302 | 0 <= age <= lifetime is preserved for dt >= 0 |
| ParticleSim.StepRecycles | src/components/GPGPUParticles.jsx:290-302 | a recycle zeroes age and offset but keeps the moved spawn position. Otherwise the age grows by dt and the offset gains noise sampled at the moved position times the old age |
| ParticleSim.LongFrameRecycles | src/components/GPGPUParticles.jsx:296-302 | a frame of 6 s or more always recycles |
| ParticleSim.ParticleStore.constructor | src/components/GPGPUParticles.jsx:212-214 | three fresh zeroed buffers of N slots |
| ParticleSim.ParticleStore.ComputeInit | src/components/GPGPUParticles.jsx:229-239 | every particle gets its hashed spawn, zero offset and hashed age, independent of the previous state, and the age bound holds |
| ParticleSim.ParticleStore.ComputeUpdate | src/components/GPGPUParticles.jsx:272-305 | every particle takes exactly one step toward its texture target, and the age bound is preserved for dt >= 0 |
| Driver.EmissiveTarget | src/components/GPGPUParticles.jsx:356-361 | in debug mode the target is the control value. Otherwise it is a preset value in [0.001, 0.1] |
| Driver.ModelColors | src/components/GPGPUParticles.jsx:51-78 | every preset's emissive intensity lies in [0.001, 0.1], and its start and end colours are `#rrggbb` strings |
| Driver.DefaultStart | src/components/GPGPUParticles.jsx:101-111 | at mount the control intensity is 0.1, and the first frame's target is Docker's preset 0.01 |
| Driver.Lerp | src/components/GPGPUParticles.jsx:356-362 | `lerp(x, y, 0)` is x and `lerp(x, y, 1)` is y |
| Driver.LerpBetween | src/components/GPGPUParticles.jsx:356-362 | for t in [0, 1] the lerp lies between its ends, its distance to the target shrinks by the factor (1 - t), and it stays fixed at the target |
| Driver.Uniforms.constructor | src/components/GPGPUParticles.jsx:208 | the uniform starts at the control value |
| Driver.Uniforms.BlendEmissive | src/components/GPGPUParticles.jsx:356-362 | the new value is the lerp toward the frame's target. It never moves away from the target for delta in [0, 1], and stays at the target once there |
| Driver.Frame | src/components/GPGPUParticles.jsx:346-362 | one frame runs the update pass with the frame time and then blends the emissive uniform |
| Driver.SwitchModel | src/components/GPGPUParticles.jsx:172-196 | rebuilding the texture leaves every particle's spawn, offset and age unchanged. An empty list changes no float and no flag. Otherwise texel i becomes vertex vs[i] of geometry gs[i] and the upload flag is set. Floats from 4N on are untouched |
| Item.Path | src/components/Item.jsx:7 | model is a prefix of path, and path is 4 or 5 characters longer |
| Item.Url | src/components/Item.jsx:8 | the URL is "/models/" followed by the path |
| Item.GlbIsDoubled | src/components/Item.jsx:7 | a model ending in ".glb" becomes model + ".glb", ending in ".glb.glb" |
| Item.OthersGetGlft | src/components/Item.jsx:7 | any other model becomes model + ".glft" |
| Item.NeverGltf | src/components/Item.jsx:7 | no path ever ends in ".gltf" |
| Item.PathInjective | src/components/Item.jsx:7 | different models give different paths |
| Item.DefaultUrl | src/components/Item.jsx:6-8 | the default model "" loads "/models/.glft" |

## Left out

- TSL node-graph construction and GPU dispatch (`instancedArray`, `Fn(...).compute`, `computeAsync`, `compute`) are not modelled. They are a foreign GPU API, so each pass is a sequential loop over particle indices.
- The internals of `hash`, `range` and `mx_fractal_noise_vec3` are left out (foreign library functions). `hash` and the vector length are function parameters, and their ranges are built into their types.
- Float32 rounding is not modelled: all numbers are exact reals. So is texture sampling and filtering at `(col/S, row/S)`: the model assumes such a sample returns texel (col, row). `Math.ceil(Math.sqrt(n))` is taken as the exact integer ceiling of the square root.
- The `randInt` draws are oracle sequences with range preconditions. Their uniform distribution and the `Math.random` source are not modelled.
- TargetSampler.TargetMap.Refill: a geometry with zero vertices makes `randInt(0, -1)` return 0. The loop then copies `undefined` (NaN) into the texture. NaN is not a real, so the draw precondition `vs[i] < count` excludes this case.
- TargetSampler.TargetMap: three.js's `needsUpdate` setter increments the texture's version counter. Here that counter is a boolean flag.
- `TargetSampler.Geometry` models the geometry list that `useMemo` collects by traversing the scene's meshes. Only the flat position array of each mesh is kept, and `traverse` itself is left out (foreign scene API).
- The attribute expressions are not modelled: the colour `mix`, the `smoothstep` circle mask, the scale falloff, the position jitter and the emissive node (pure float shading consumed by the renderer).
- Three.js `Color.lerp` and colour-string parsing for the start and end colours are not modelled (foreign float RGB type). The preset and control colour strings are kept as data only.
- React lifecycle, hooks, refs and leva controls are not modelled (framework scheduling). Every frame's control values are a `Driver.Controls` parameter.
- Driver.Frame: it passes one `delta` both to the update pass (TSL's `deltaTime`) and to the lerp (the `useFrame` delta). The source takes these from two different clocks.
- `randValue`'s default seed of 42 is never used by the core and is not modelled.
- Item.jsx's `useGLTF` loading, scene cloning, `console.log` and preload calls are left out (asset I/O). So are `App.jsx`, `Experience.jsx` and `PreloadModels.jsx` (glue).
