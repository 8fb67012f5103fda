# Dither effect — a verified model

`static/dither.js` draws an animated wave and then dithers it:

- a wave fragment shader sums four octaves of absolute gradient noise (`fbm`);
- it warps the sample point by a second `fbm` (`pattern`) and tints a colour with the result;
- a post-processing pass snaps each pixel to a `pixelSize` block, adds an 8x8 Bayer threshold and quantizes every channel to `colorNum` levels;
- a `Dither` object resolves its options, owns the uniforms of both passes, advances the `time` uniform once per frame and rewrites the resolutions, render-target size and mesh scale on every window resize.

This project models those three parts in Dafny and proves what they promise. The modules are:

- `Common`: shared value types (`Vec2`, `Vec3`, `Rgb`, `Rgba`, `Option`), `Abs`, `Clamp`, and real/floor arithmetic facts.
- `Bayer` (`bayer.dfy`): the constant `bayerMatrix8x8`, kept as its 64 numerators written eight per row, each entry being numerator / 64.0. `Entry(i)` is the flat row-major lookup of entry `i = y * 8 + x`. Beside it sits an independent reference construction: the Bayer ranking (`BayerRank`), the 2x2 order-doubling recurrence unrolled three times, and its inverse (`BayerCell`). The table is proved to be that construction, cell by cell, so its entries are exactly {k/64 | k in 0..63}, each once.
- `DitherShader` (`dither_shader.dfy`): `dither` and the dither pass's `main`, written as functions over reals.
  - GLSL `mod` is kept literally as `x - y * floor(x / y)`, followed by `int()` truncation.
  - The sampled texture is a function parameter.
  - Proved: the output levels, monotonicity, periodicity under shifts of 8 blocks, and the bounds and idempotence of the block snap.
- `WaveShader` (`wave_shader.dfy`):
  - `fbm` is an imperative method with the source's four-iteration loop, proved equal to a recursive specification `FbmValue`.
  - `pattern` and the wave `main` are methods that call it.
  - `cnoise` is an uninterpreted parameter `noise: Vec2 -> real`.
- `Orchestrator` (`orchestrator.dfy`): the option resolution, and the classes `DitherPass` and `Dither`.
  - Their fields are the values the source writes: the wave uniforms, the pass resolution, the render-target size and the mesh scale.
  - `Animate` and `OnWindowResize` update those fields in place and keep a validity invariant.
  - The clock reading, the container size and the frustum height `2 * tan(37.5 degrees) * 6` are parameters; the frustum height is only required to be positive.
  - The pixel ratio is the constant 1 that the renderer is given.

GLSL floats and JavaScript numbers are modelled as exact reals throughout.

## Model

| member | source | states |
|---|---|---|
| Bayer.Entry | static/dither.js:97-106 | the flat lookup `bayerMatrix8x8[i]` of index i in 0..63 is the reference rank of cell (i mod 8, i div 8) over 64, so it lies in [0, 63/64] |
| Bayer.CellIndex | static/dither.js:112 | the lookup position `y * 8 + x` of a cell in 0..7 x 0..7 is in 0..63, and its column and row are recovered by `% 8` and `/ 8` |
| Bayer.BayerRank | static/dither.js:97-106 | the reference rank of a cell, built from the 2x2 Bayer pattern by the order-doubling recurrence, is an integer in 0..63 |
| Bayer.BayerCellInverse | static/dither.js:97-106 | every rank k in 0..63 is the rank of the cell BayerCell(k), so the ranking is onto 0..63 |
| Bayer.BayerRankInjective | static/dither.js:97-106 | BayerCell undoes BayerRank on every cell, so no two cells share a rank |
| Bayer.TableMatchesRank | static/dither.js:97-106 | every numerator of the literal table is the reference rank of its cell |
| Bayer.TableDistinct | static/dither.js:97-106 | no value occurs twice in the table |
| Bayer.TableCovers | static/dither.js:97-106 | every k/64 with k in 0..63 occurs in the table |
| DitherShader.GlslMod | static/dither.js:110-111 | GLSL `mod(x, y)` lies in [0, y) for a positive y and in (y, 0] for a negative y |
| DitherShader.TruncToInt | static/dither.js:110-111 | `int()` truncates toward zero: for x >= 0 it is the largest integer not above x, for x < 0 the smallest integer not below x |
| DitherShader.BlockCoord | static/dither.js:109 | the block coordinate is the integer c with c <= uv * resolution / pixelSize < c + 1 |
| DitherShader.CellCoord | static/dither.js:110-111 | `int(mod(c, 8.0))` of a block coordinate is in 0..7 and equals the coordinate's Euclidean remainder mod 8, negative coordinates included |
| DitherShader.BayerIndex | static/dither.js:110-112 | the table index of any block is in 0..63 and is `(cy mod 8) * 8 + (cx mod 8)` |
| DitherShader.Threshold | static/dither.js:112 | the threshold of any block is the rank of its cell over 64, minus 0.25, and lies in [-0.25, 47/64] |
| DitherShader.BlockThreshold | static/dither.js:109-112 | the threshold of the block a pixel falls in lies in [-0.25, 47/64] |
| DitherShader.Clamped | static/dither.js:113-116 | threshold-add, bias 0.2 and clamp leave a value in [0, 1] |
| DitherShader.QuantizeChannel | static/dither.js:113-117 | a quantized channel is a whole number of steps 1 / (colorNum - 1) for any colorNum other than 1, fractional ones included; for colorNum > 1 it is not negative and within half a step of the biased, clamped channel, so it is the nearest multiple with halves rounded up |
| DitherShader.Round | static/dither.js:117 | `floor(v * m + 0.5) / m` is k / m for an integer k; for m > 0 it is within half a step 1 / m of v, and not negative for v >= 0 |
| DitherShader.QuantizeColor | static/dither.js:113-117 | for colorNum > 1 every channel of the quantized colour is a non-negative multiple of 1 / (colorNum - 1) within half a step of the same input channel after threshold-add, bias and clamp |
| DitherShader.Dither | static/dither.js:108-118 | for colorNum > 1 every output channel of `dither` is a non-negative multiple of 1 / (colorNum - 1) within half a step of its input channel, biased by the threshold of the pixel's block and clamped |
| DitherShader.LevelIndex | static/dither.js:113-117 | for an integer colorNum >= 2 each quantized channel is Level(k, colorNum) = k / (colorNum - 1) for an integer k in 0..colorNum-1 |
| DitherShader.RoundedInRange | static/dither.js:117 | the rounding `floor(x * (n - 1) + 0.5)` of a value in [0, 1] is an integer in 0..n-1 |
| DitherShader.LevelStrictlyIncreasing | static/dither.js:117 | the levels are strictly increasing in k |
| DitherShader.ChannelIsLevel | static/dither.js:113-117 | each quantized channel is one of the colorNum levels and lies in [0, 1]; with colorNum 2 it is 0 or 1 |
| DitherShader.DitherOutputIsLevel | static/dither.js:108-118 | every channel of `dither(uv, color)` is one of the colorNum levels, in [0, 1], and 0 or 1 when colorNum is 2 |
| DitherShader.EveryLevelReached | static/dither.js:113-117 | conversely every level k / (colorNum - 1) is the output for some input colour, whatever the threshold |
| DitherShader.ClampedAtLevel | static/dither.js:113-116 | the input colour Level(k) + 0.2 - t / (n - 1) reaches the clamp exactly at Level(k) |
| DitherShader.RoundLevel | static/dither.js:117 | a level is a fixed point of the final rounding |
| DitherShader.LevelsCount | static/dither.js:113-117 | the set of levels has exactly colorNum members |
| DitherShader.LevelsBelowCount | static/dither.js:113-117 | the first j levels are j distinct values |
| DitherShader.QuantizeMonotone | static/dither.js:113-117 | for colorNum > 1 a brighter input channel never gives a darker output at the same threshold |
| DitherShader.ClampedMonotone | static/dither.js:113-116 | threshold-add, bias and clamp are monotone in the input colour |
| DitherShader.RoundMonotone | static/dither.js:117 | the final rounding is monotone |
| DitherShader.BlockShift | static/dither.js:109 | moving a pixel by 8 * pixelSize * m moves its block coordinate by exactly 8 * m |
| DitherShader.ThresholdPeriodic | static/dither.js:110-112 | the threshold of a block depends only on its coordinates mod 8 |
| DitherShader.BlockThresholdPeriodic | static/dither.js:109-112 | shifting a pixel by multiples of 8 * pixelSize on each axis keeps its threshold |
| DitherShader.DitherPeriodic | static/dither.js:108-118 | such a shift leaves `dither` of the same input colour unchanged |
| DitherShader.Snap | static/dither.js:121-122 | the snapped coordinate s * floor(u / s) is the start of the block that u falls in: r <= u < r + s for s > 0, mirrored for s < 0 |
| DitherShader.BlockBounds | static/dither.js:122 | the block start lies within one block width of u on the correct side, for either sign of the width |
| DitherShader.SnappedUv | static/dither.js:121-122 | on each axis with a positive normalized pixel size, uvPixel <= vUv < uvPixel + pixelSize / resolution |
| DitherShader.SnappedUvIdempotent | static/dither.js:121-122 | snapping the snapped sampling coordinate again returns it unchanged |
| DitherShader.SnapIdempotent | static/dither.js:122 | snapping one coordinate twice equals snapping it once |
| DitherShader.SnapIsBlockStart | static/dither.js:109-122 | the snapped coordinate of `main` is the block coordinate used by `dither` times the normalized pixel size |
| DitherShader.DitherFragment | static/dither.js:120-126 | the dither pass keeps the alpha of the texel it samples at the snapped coordinate |
| DitherShader.FragmentIsLevel | static/dither.js:120-126 | for an integer colorNum >= 2 every rgb channel the dither pass writes is one of the colorNum levels |
| DitherShader.FractionalColorNumOvershoots | static/dither.js:113-117 | with colorNum 2.5 a saturated channel is quantized to 4/3, above 1, whatever the threshold |
| DitherShader.BlockIsUniform | static/dither.js:108-126 | all pixels of one pixelSize block render the same colour |
| DitherShader.SolidImagePeriodic | static/dither.js:108-126 | a solid input image is dithered to a pattern repeating every 8 blocks on each axis |
| WaveShader.Magnitude | static/dither.js:67 | the absolute noise added per octave is never negative |
| WaveShader.FbmValue | static/dither.js:61-72 | the value of `fbm(p)` is not negative when waveAmplitude >= 0 |
| WaveShader.Fbm | static/dither.js:61-72 | the four-iteration loop (value += amp * abs(noise(p)); p *= freq; amp *= waveAmplitude) computes FbmValue, the four weighted octaves |
| WaveShader.FbmExpanded | static/dither.js:61-72 | FbmValue is |n(p)| + a·|n(f·p)| + a²·|n(f²·p)| + a³·|n(f³·p)|: the octave weights are the powers of waveAmplitude and the sample points are scaled by powers of waveFrequency |
| WaveShader.TurbulenceNonnegative | static/dither.js:66-70 | with non-negative weights the remaining octaves add a non-negative amount |
| WaveShader.TurbulenceZeroWeight | static/dither.js:66-70 | octaves of weight 0 add nothing |
| WaveShader.TurbulenceFirstOctaveOnly | static/dither.js:66-70 | with waveAmplitude 0 only the first octave contributes |
| WaveShader.FbmZeroAmplitude | static/dither.js:61-72 | with waveAmplitude 0, fbm(p) is |cnoise(p)| |
| WaveShader.TurbulenceBounded | static/dither.js:66-70 | with noise magnitude at most bound and waveAmplitude in [0, 1], n octaves add at most n * amp * bound |
| WaveShader.OctaveStep | static/dither.js:67-69 | the per-octave step of that bound |
| WaveShader.FbmBounded | static/dither.js:61-72 | under the same conditions fbm lies in [0, 4 * bound] |
| WaveShader.PatternValue | static/dither.js:74-77 | the value of `pattern(p)` is not negative when waveAmplitude >= 0 |
| WaveShader.Pattern | static/dither.js:74-77 | `pattern(p)` computes PatternValue, is non-negative for waveAmplitude >= 0, and for waveAmplitude 0 is |cnoise(p + |cnoise(p - time * waveSpeed)|)| |
| WaveShader.PatternZeroAmplitude | static/dither.js:74-77 | with waveAmplitude 0 pattern collapses to two nested absolute noises |
| WaveShader.PatternBounded | static/dither.js:74-77 | with noise magnitude at most bound and waveAmplitude in [0, 1], pattern lies in [0, 4 * bound] |
| WaveShader.WaveUv | static/dither.js:80-82 | uv.x is (x - width / 2) / height and uv.y is (y - height / 2) / height: both axes are centred and divided by the height, so the aspect ratio is preserved |
| WaveShader.WaveUvCentred | static/dither.js:80-82 | the screen centre maps to (0, 0) |
| WaveShader.Mix | static/dither.js:84 | `mix(a, b, t)` is a at t = 0 and b at t = 1 |
| WaveShader.MixFromBlack | static/dither.js:84 | `mix(vec3(0.0), waveColor, f)` scales the wave colour by f in every channel |
| WaveShader.WaveFragment | static/dither.js:79-86 | the wave `main` writes the wave colour scaled by pattern(uv), with alpha 1 |
| WaveShader.WaveColorBounded | static/dither.js:79-86 | with a noise bound and waveAmplitude in [0, 1], each channel of a non-negative wave colour is scaled by a factor in [0, 4 * bound] |
| WaveShader.TintMonotone | static/dither.js:84 | scaling a non-negative colour by f in [0, top] keeps each channel between 0 and top times it |
| Orchestrator.Resolve | static/dither.js:178-186 | each resolved number option is the supplied value unless it is missing or 0, else its default (0.05, 3, 0.3, 4, 2); a supplied colour is always kept, else [0.5, 0.5, 0.5]; disableAnimation is true exactly when true was supplied |
| Orchestrator.ResolvedNumbersNonzero | static/dither.js:178-186 | no resolved number option is 0, so colorNum and pixelSize are never 0 |
| Orchestrator.ExplicitZeroAmplitude | static/dither.js:181 | an explicit waveAmplitude of 0 resolves to 0.3 |
| Orchestrator.ResolveIdempotent | static/dither.js:178-186 | resolving the resolved options again gives the same options |
| Orchestrator.FrameTime | static/dither.js:285-287 | a frame writes the clock reading to `time` when animation is enabled and keeps the previous value when it is disabled |
| Orchestrator.TimeAfterFrames | static/dither.js:283-287 | after any run of frames the `time` uniform holds its starting value or one of the clock readings |
| Orchestrator.FrozenTime | static/dither.js:285-287 | with animation disabled, `time` keeps its value (initially 0) across any number of frames |
| Orchestrator.LiveTimeTracksClock | static/dither.js:285-287 | with animation enabled, after any non-empty run of frames `time` is the latest clock reading |
| Orchestrator.MeshScale | static/dither.js:276-279 | the mesh scale after a resize is (frustumWidth, frustumHeight, 1) with scale.x / scale.y == width / height |
| Orchestrator.Resized | static/dither.js:262-280 | after a resize both resolution uniforms and the render target are (width, height) at pixel ratio 1, and the mesh scale has height H, depth 1 and the container's aspect ratio |
| Orchestrator.DitherPass.constructor | static/dither.js:131-137 | colorNum and pixelSize default to 4 and 2 only when the argument is missing; the resolution starts at (0, 0) |
| Orchestrator.DitherPass.SetSize | static/dither.js:169-171 | setSize writes the resolution uniform |
| Orchestrator.Dither.constructor | static/dither.js:176-260 | the options are resolved and copied into the uniforms; both resolutions and the render target are the container size; `time` starts at 0, and the first frame runs |
| Orchestrator.Dither.Animate | static/dither.js:282-287 | a frame changes only the `time` uniform, as FrameTime says, and keeps the invariant |
| Orchestrator.Dither.OnWindowResize | static/dither.js:262-280 | a resize leaves exactly the viewport Resized(width, height), whatever it was before, so it is idempotent; time and option uniforms are untouched and the invariant is kept |

## Left out

- `cnoise`, `mod289`, `permute`, `taylorInvSqrt` and `fade` (static/dither.js:28-59) are float hash and gradient arithmetic. The noise is a parameter `noise: Vec2 -> real`, and the results hold for any such function.
- Floating point: rounding, `Infinity` and `NaN` are not modelled; numbers are exact reals. So JavaScript's falsy `NaN` is not among the falsy option values.
- Division by zero cannot be expressed over reals, so the members that divide require a nonzero divisor:
  - `colorNum` is not 1 in the quantizer;
  - `pixelSize` and the resolution are not 0;
  - the container height is not 0 on a resize.
  
  The source divides regardless and gets `Infinity`/`NaN`.
- The level properties need an integer colorNum >= 2: LevelIndex, RoundedInRange, LevelStrictlyIncreasing, ChannelIsLevel, DitherOutputIsLevel, FragmentIsLevel, EveryLevelReached, ClampedAtLevel, RoundLevel, LevelsCount and LevelsBelowCount. Only for such a colorNum is the output one of exactly colorNum levels and within [0, 1]. A fractional colorNum is accepted by the code, and then the output can exceed 1: with colorNum 2.5 a saturated channel is rounded to 4/3 (FractionalColorNumOvershoots). The grid itself holds for any real colorNum other than 1: Round, QuantizeChannel, QuantizeColor and Dither state that every channel is a whole number of steps 1 / (colorNum - 1), and for colorNum > 1 the nearest one to the clamped value. QuantizeMonotone holds for any real colorNum > 1; DitherPeriodic, BlockIsUniform and SolidImagePeriodic hold for any colorNum other than 1.
- Orchestrator.Resolve: options are typed. Numbers are `real`, the colour is `Rgb`, and `disableAnimation` is `bool`. A supplied truthy non-boolean `disableAnimation` (such as 1), an empty or short colour array, and values of the wrong type are not modelled.
- `Math.tan` and the degree-to-radian frustum height (static/dither.js:217, 277) are trigonometry on floats. The frustum height is a positive constant field of `Dither`.
- Three.js is a library not part of this model. Left out are:
  - the scene, cameras (including `camera.aspect`) and renderer (`setSize`, `setRenderTarget`, `render`);
  - the materials, the plane geometry built at static/dither.js:239 and the texture object;
  - `DitherPass.render`.
  
  The world-space extent of the mesh is not claimed; only the `mesh.scale` values are modelled.
- The clock is a parameter: each `Animate` call receives the elapsed time it would read.
- The container size is a parameter of the constructor and of `OnWindowResize`.
- The `requestAnimationFrame` scheduling and the window `resize` listener are host event plumbing. A sequence of frames is modelled by TimeAfterFrames over a list of clock readings.
- `destroy` (static/dither.js:297-301) is left out: it removes a different function from the listener that was registered, so it unregisters nothing.
- The `initDither` bootstrap with its DOM lookup, timers and console output (static/dither.js:308-356) is left out as environment I/O.
- The vertex shaders only pass `uv` through and project positions, so they are left out.
