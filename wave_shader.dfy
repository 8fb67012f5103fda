/** The animated wave fragment shader: four octaves of absolute gradient
    noise (the turbulence loop of `fbm`), the domain-warped `pattern`, and
    `main`, which tints the wave colour by the pattern. The gradient noise
    `cnoise` itself is a parameter: any total function of the sample point. */
module WaveShader {
  import opened Common

  /** `OCTAVES`: the number of noise layers summed by `fbm`. */
  const Octaves: nat := 4

  /** The wave shader's uniforms as the orchestrator sets them. */
  datatype WaveUniforms = WaveUniforms(
    resolution: Vec2,
    time: real,
    waveSpeed: real,
    waveFrequency: real,
    waveAmplitude: real,
    waveColor: Rgb)

  /** `p * k` for a vec2 p and a float k. */
  function Scale(p: Vec2, k: real): Vec2 {
    Vec2(p.x * k, p.y * k)
  }

  /** `p + d` for a vec2 p and a float d: d is added to both components. */
  function Shift(p: Vec2, d: real): Vec2 {
    Vec2(p.x + d, p.y + d)
  }

  /** `abs(cnoise(p))`: the magnitude of the noise at p. */
  function Magnitude(noise: Vec2 -> real, p: Vec2): (m: real)
    ensures m >= 0.0
  {
    Abs(noise(p))
  }

  /** The sum that the octaves from the current one on still add to `value`:
      n octaves, the first sampled at p with weight amp, each next one at the
      point scaled by frequency and with the weight scaled by amplitude. */
  function Turbulence(noise: Vec2 -> real, p: Vec2, amp: real, n: nat, frequency: real, amplitude: real): real
    decreases n
  {
    if n == 0 then 0.0
    else amp * Magnitude(noise, p) + Turbulence(noise, Scale(p, frequency), amp * amplitude, n - 1, frequency, amplitude)
  }

  /** The value of `fbm(p)`: all octaves, starting with weight 1; never
      negative for a non-negative amplitude. */
  function FbmValue(noise: Vec2 -> real, p: Vec2, frequency: real, amplitude: real): (v: real)
    ensures amplitude >= 0.0 ==> v >= 0.0
  {
    if amplitude >= 0.0 then
      TurbulenceNonnegative(noise, p, 1.0, Octaves, frequency, amplitude);
      Turbulence(noise, p, 1.0, Octaves, frequency, amplitude)
    else
      Turbulence(noise, p, 1.0, Octaves, frequency, amplitude)
  }

  /** `fbm(p)`: the octave loop, accumulating weighted absolute noise. */
  method Fbm(noise: Vec2 -> real, p0: Vec2, waveFrequency: real, waveAmplitude: real) returns (value: real)
    ensures value == FbmValue(noise, p0, waveFrequency, waveAmplitude)
  {
    value := 0.0;
    var amp := 1.0;
    var freq := waveFrequency;
    var p := p0;
    for i := 0 to Octaves
      invariant value + Turbulence(noise, p, amp, Octaves - i, freq, waveAmplitude)
             == FbmValue(noise, p0, waveFrequency, waveAmplitude)
      invariant freq == waveFrequency
    {
      value := value + amp * Magnitude(noise, p);
      p := Scale(p, freq);
      amp := amp * waveAmplitude;
    }
  }

  /** The four octaves written out: amplitude^i times the absolute noise at the
      point scaled i times by the frequency. */
  lemma FbmExpanded(noise: Vec2 -> real, p: Vec2, f: real, a: real)
    ensures FbmValue(noise, p, f, a)
         == Magnitude(noise, p) + a * Magnitude(noise, Scale(p, f))
          + a * a * Magnitude(noise, Scale(Scale(p, f), f))
          + a * a * a * Magnitude(noise, Scale(Scale(Scale(p, f), f), f))
  {
    FirstTwoOctaves(noise, p, f, a);
    LastTwoOctaves(noise, p, f, a);
  }

  /** The first two octaves of fbm, and the two after them still to add. */
  lemma FirstTwoOctaves(noise: Vec2 -> real, p: Vec2, f: real, a: real)
    ensures FbmValue(noise, p, f, a)
         == Magnitude(noise, p) + a * Magnitude(noise, Scale(p, f))
          + Turbulence(noise, Scale(Scale(p, f), f), a * a, 2, f, a)
  {
    FbmUnfold(noise, p, f, a);
    TurbulenceStep(noise, p, 1.0, 4, f, a);
    assert 1.0 * a == a;
    TurbulenceStep(noise, Scale(p, f), a, 3, f, a);
  }

  /** The last two octaves of fbm, of weights a^2 and a^3. */
  lemma LastTwoOctaves(noise: Vec2 -> real, p: Vec2, f: real, a: real)
    ensures Turbulence(noise, Scale(Scale(p, f), f), a * a, 2, f, a)
         == a * a * Magnitude(noise, Scale(Scale(p, f), f))
          + a * a * a * Magnitude(noise, Scale(Scale(Scale(p, f), f), f))
  {
    TurbulenceStep(noise, Scale(Scale(p, f), f), a * a, 2, f, a);
    TurbulenceStep(noise, Scale(Scale(Scale(p, f), f), f), a * a * a, 1, f, a);
  }

  lemma FbmUnfold(noise: Vec2 -> real, p: Vec2, f: real, a: real)
    ensures FbmValue(noise, p, f, a) == Turbulence(noise, p, 1.0, 4, f, a)
  {
  }

  /** The first of n > 0 octaves and the n - 1 after it. */
  lemma TurbulenceStep(noise: Vec2 -> real, p: Vec2, amp: real, n: nat, f: real, a: real)
    requires n > 0
    ensures Turbulence(noise, p, amp, n, f, a)
         == amp * Magnitude(noise, p) + Turbulence(noise, Scale(p, f), amp * a, n - 1, f, a)
  {
  }

  /** With non-negative weights every octave adds a non-negative amount. */
  lemma {:induction false} TurbulenceNonnegative(noise: Vec2 -> real, p: Vec2, amp: real, n: nat, f: real, a: real)
    requires amp >= 0.0 && a >= 0.0
    ensures Turbulence(noise, p, amp, n, f, a) >= 0.0
    decreases n
  {
    if n > 0 {
      MulLe(0.0, Magnitude(noise, p), amp);
      MulLe(0.0, a, amp);
      TurbulenceNonnegative(noise, Scale(p, f), amp * a, n - 1, f, a);
    }
  }

  /** Octaves of weight zero add nothing. */
  lemma {:induction false} TurbulenceZeroWeight(noise: Vec2 -> real, p: Vec2, n: nat, f: real, a: real)
    ensures Turbulence(noise, p, 0.0, n, f, a) == 0.0
    decreases n
  {
    if n > 0 {
      TurbulenceZeroWeight(noise, Scale(p, f), n - 1, f, a);
    }
  }

  /** With amplitude 0 only the first octave contributes. */
  lemma TurbulenceFirstOctaveOnly(noise: Vec2 -> real, p: Vec2, amp: real, n: nat, f: real)
    requires n >= 1
    ensures Turbulence(noise, p, amp, n, f, 0.0) == amp * Magnitude(noise, p)
  {
    TurbulenceZeroWeight(noise, Scale(p, f), n - 1, f, 0.0);
  }

  /** With amplitude 0, `fbm(p)` is |noise(p)|. */
  lemma FbmZeroAmplitude(noise: Vec2 -> real, p: Vec2, f: real)
    ensures FbmValue(noise, p, f, 0.0) == Magnitude(noise, p)
  {
    TurbulenceFirstOctaveOnly(noise, p, 1.0, Octaves, f);
  }

  /** If the noise never exceeds bound in magnitude and the amplitude is in
      [0, 1], n octaves of weight at most amp add at most n * amp * bound. */
  lemma {:induction false} TurbulenceBounded(noise: Vec2 -> real, bound: real, p: Vec2, amp: real, n: nat, f: real, a: real)
    requires forall q :: Magnitude(noise, q) <= bound
    requires amp >= 0.0 && 0.0 <= a <= 1.0
    ensures Turbulence(noise, p, amp, n, f, a) <= n as real * (amp * bound)
    decreases n
  {
    if n > 0 {
      var next := amp * a;
      var x := Magnitude(noise, p);
      var tail := Turbulence(noise, Scale(p, f), next, n - 1, f, a);
      TurbulenceStep(noise, p, amp, n, f, a);
      MulLe(0.0, a, amp);
      TurbulenceBounded(noise, bound, Scale(p, f), next, n - 1, f, a);
      OctaveStep(amp, a, bound, x, tail, n - 1);
    }
  }

  /** One octave of amp * x with x <= bound plus n - 1 octaves of at most
      amp * a * bound each is at most n octaves of amp * bound. */
  lemma OctaveStep(amp: real, a: real, bound: real, x: real, tail: real, rest: nat)
    requires amp >= 0.0 && 0.0 <= a <= 1.0 && 0.0 <= x <= bound
    requires tail <= rest as real * ((amp * a) * bound)
    ensures amp * x + tail <= (rest + 1) as real * (amp * bound)
  {
    var w := amp * bound;
    var r := rest as real;
    MulLe(x, bound, amp);
    MulLe(0.0, bound, amp);
    assert (amp * a) * bound == a * w;
    MulLe(a, 1.0, w);
    MulLe(a * w, w, r);
    assert (r + 1.0) * w == r * w + w;
  }

  /** `fbm` is at most four times the noise bound when the amplitude is in [0, 1]. */
  lemma FbmBounded(noise: Vec2 -> real, bound: real, p: Vec2, f: real, a: real)
    requires forall q :: Magnitude(noise, q) <= bound
    requires 0.0 <= a <= 1.0
    ensures 0.0 <= FbmValue(noise, p, f, a) <= 4.0 * bound
  {
    TurbulenceBounded(noise, bound, p, 1.0, Octaves, f, a);
  }

  /** `p2 = p - time * waveSpeed`: p moved back along the diagonal by the
      distance the wave has drifted. */
  function Behind(p: Vec2, u: WaveUniforms): Vec2 {
    Shift(p, -(u.time * u.waveSpeed))
  }

  /** `fbm(p2)`: the offset by which pattern warps its sample point. */
  function Warp(noise: Vec2 -> real, p: Vec2, u: WaveUniforms): real {
    FbmValue(noise, Behind(p, u), u.waveFrequency, u.waveAmplitude)
  }

  /** The value of `pattern(p)`: fbm at p shifted by the warp; never negative
      for a non-negative amplitude. */
  function PatternValue(noise: Vec2 -> real, p: Vec2, u: WaveUniforms): (v: real)
    ensures u.waveAmplitude >= 0.0 ==> v >= 0.0
  {
    FbmValue(noise, Shift(p, Warp(noise, p, u)), u.waveFrequency, u.waveAmplitude)
  }

  lemma PatternUnfold(noise: Vec2 -> real, p: Vec2, u: WaveUniforms)
    ensures PatternValue(noise, p, u) == FbmValue(noise, Shift(p, Warp(noise, p, u)), u.waveFrequency, u.waveAmplitude)
    ensures Warp(noise, p, u) == FbmValue(noise, Behind(p, u), u.waveFrequency, u.waveAmplitude)
  {
  }

  /** `pattern(p)`. */
  method Pattern(noise: Vec2 -> real, p: Vec2, u: WaveUniforms) returns (f: real)
    ensures f == PatternValue(noise, p, u)
    ensures u.waveAmplitude >= 0.0 ==> f >= 0.0
    ensures u.waveAmplitude == 0.0 ==> f == Magnitude(noise, Shift(p, Magnitude(noise, Behind(p, u))))
  {
    var p2 := Behind(p, u);
    var warp := Fbm(noise, p2, u.waveFrequency, u.waveAmplitude);
    f := Fbm(noise, Shift(p, warp), u.waveFrequency, u.waveAmplitude);
    PatternUnfold(noise, p, u);
    if u.waveAmplitude == 0.0 {
      PatternZeroAmplitude(noise, p, u);
    }
  }

  /** With amplitude 0 each fbm is the absolute noise at its point, so the
      pattern is |noise(p + |noise(p - time * waveSpeed)|)|. */
  lemma PatternZeroAmplitude(noise: Vec2 -> real, p: Vec2, u: WaveUniforms)
    requires u.waveAmplitude == 0.0
    ensures PatternValue(noise, p, u) == Magnitude(noise, Shift(p, Magnitude(noise, Behind(p, u))))
  {
    PatternUnfold(noise, p, u);
    FbmZeroAmplitude(noise, Behind(p, u), u.waveFrequency);
    FbmZeroAmplitude(noise, Shift(p, Warp(noise, p, u)), u.waveFrequency);
  }

  /** If the noise magnitude never exceeds bound and the amplitude is in
      [0, 1], the pattern lies in [0, 4 * bound]. */
  lemma PatternBounded(noise: Vec2 -> real, bound: real, p: Vec2, u: WaveUniforms)
    requires forall q :: Magnitude(noise, q) <= bound
    requires 0.0 <= u.waveAmplitude <= 1.0
    ensures 0.0 <= PatternValue(noise, p, u) <= 4.0 * bound
  {
    PatternUnfold(noise, p, u);
    FbmBounded(noise, bound, Shift(p, Warp(noise, p, u)), u.waveFrequency, u.waveAmplitude);
  }

  /** `uv` of the wave `main`: the fragment position over the resolution,
      centred on the origin, with x stretched by the aspect ratio. */
  function WaveUv(fragCoord: Vec2, resolution: Vec2): (uv: Vec2)
    requires resolution.x != 0.0 && resolution.y != 0.0
    ensures uv.x == (fragCoord.x - resolution.x / 2.0) / resolution.y
    ensures uv.y == (fragCoord.y - resolution.y / 2.0) / resolution.y
  {
    var rx, ry := resolution.x, resolution.y;
    var centred := Vec2(fragCoord.x / rx - 0.5, fragCoord.y / ry - 0.5);
    assert centred.x * (rx / ry) == (fragCoord.x - rx / 2.0) / ry;
    Vec2(centred.x * (rx / ry), centred.y)
  }

  /** The centre of the screen maps to the origin. */
  lemma WaveUvCentred(resolution: Vec2)
    requires resolution.x != 0.0 && resolution.y != 0.0
    ensures WaveUv(Vec2(resolution.x / 2.0, resolution.y / 2.0), resolution) == Vec2(0.0, 0.0)
  {
  }

  /** GLSL `mix(a, b, t)` for one channel. */
  function Mix(a: real, b: real, t: real): (r: real)
    ensures t == 0.0 ==> r == a
    ensures t == 1.0 ==> r == b
  {
    a * (1.0 - t) + b * t
  }

  /** The colour c scaled by f in every channel. */
  function Tint(c: Rgb, f: real): Rgb {
    Rgb(f * c.r, f * c.g, f * c.b)
  }

  /** Mixing from black scales the colour by the mix factor. */
  lemma MixFromBlack(c: Rgb, t: real)
    ensures Rgb(Mix(0.0, c.r, t), Mix(0.0, c.g, t), Mix(0.0, c.b, t)) == Tint(c, t)
  {
  }

  /** `main` of the wave pass: the wave colour mixed from black by the pattern
      value, opaque. */
  method WaveFragment(noise: Vec2 -> real, fragCoord: Vec2, u: WaveUniforms) returns (color: Rgba)
    requires u.resolution.x != 0.0 && u.resolution.y != 0.0
    ensures color == Rgba(Tint(u.waveColor, PatternValue(noise, WaveUv(fragCoord, u.resolution), u)), 1.0)
  {
    var uv := WaveUv(fragCoord, u.resolution);
    var f := Pattern(noise, uv, u);
    var c := u.waveColor;
    color := Rgba(Rgb(Mix(0.0, c.r, f), Mix(0.0, c.g, f), Mix(0.0, c.b, f)), 1.0);
    MixFromBlack(c, f);
  }

  /** With a noise bound and an amplitude in [0, 1], every channel of the
      wave colour tinted by the pattern lies between 0 and that channel tinted
      by four times the bound (for a non-negative colour). */
  lemma WaveColorBounded(noise: Vec2 -> real, bound: real, p: Vec2, u: WaveUniforms)
    requires forall q :: Magnitude(noise, q) <= bound
    requires 0.0 <= u.waveAmplitude <= 1.0
    requires u.waveColor.r >= 0.0 && u.waveColor.g >= 0.0 && u.waveColor.b >= 0.0
    ensures TintBetween(u.waveColor, PatternValue(noise, p, u), 4.0 * bound)
  {
    PatternBounded(noise, bound, p, u);
    TintMonotone(u.waveColor, PatternValue(noise, p, u), 4.0 * bound);
  }

  /** Every channel of c tinted by f lies between 0 and the same channel
      tinted by top. */
  predicate TintBetween(c: Rgb, f: real, top: real) {
    var lo, hi := Tint(c, f), Tint(c, top);
    0.0 <= lo.r <= hi.r && 0.0 <= lo.g <= hi.g && 0.0 <= lo.b <= hi.b
  }

  lemma TintMonotone(c: Rgb, f: real, top: real)
    requires 0.0 <= f <= top
    requires c.r >= 0.0 && c.g >= 0.0 && c.b >= 0.0
    ensures TintBetween(c, f, top)
  {
    MulLe(0.0, f, c.r);
    MulLe(f, top, c.r);
    MulLe(0.0, f, c.g);
    MulLe(f, top, c.g);
    MulLe(0.0, f, c.b);
    MulLe(f, top, c.b);
  }
}
