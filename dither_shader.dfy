/** The ordered-dithering post-process fragment shader: Bayer threshold
    lookup, threshold-add / bias / clamp / round quantizer, and the block snap
    of the sampling coordinate. Floats are exact reals. */
module DitherShader {
  import opened Common
  import opened Bayer

  /** The fixed bias subtracted after the threshold is added. */
  const Bias: real := 0.2

  /** GLSL `mod(x, y)`, defined as `x - y * floor(x / y)`. */
  function GlslMod(x: real, y: real): (r: real)
    requires y != 0.0
    ensures y > 0.0 ==> 0.0 <= r < y
    ensures y < 0.0 ==> y < r <= 0.0
  {
    BlockBounds(x, y);
    x - y * (x / y).Floor as real
  }

  /** GLSL `int(x)`: truncation toward zero. */
  function TruncToInt(x: real): (n: int)
    ensures x >= 0.0 ==> n as real <= x < n as real + 1.0
    ensures x < 0.0 ==> n as real - 1.0 < x <= n as real
  {
    if x >= 0.0 then x.Floor else -((-x).Floor)
  }

  /** One component of `floor(uv * resolution / pixelSize)`: the index of the
      pixelSize-wide block that the coordinate falls in. */
  function BlockCoord(uv: real, resolution: real, pixelSize: real): (c: int)
    requires pixelSize != 0.0
    ensures c as real <= uv * resolution / pixelSize < c as real + 1.0
  {
    (uv * resolution / pixelSize).Floor
  }

  lemma FloorOfEighth(s: int)
    ensures (s as real / 8.0).Floor == s / 8
  {
    var q, r := s / 8, s % 8;
    assert s == 8 * q + r && 0 <= r < 8;
    assert s as real / 8.0 == r as real / 8.0 + q as real;
    FloorShift(r as real / 8.0, q);
  }

  /** `int(mod(scaledCoord, 8.0))`: the float modulo followed by truncation
      agrees with the Euclidean remainder of the block coordinate, so it is a
      Bayer column or row in 0..7. */
  function CellCoord(s: int): (c: int)
    ensures 0 <= c < 8
    ensures c == s % 8
  {
    FloorOfEighth(s);
    FloorOfInt(s % 8);
    TruncToInt(GlslMod(s as real, 8.0))
  }

  /** `y * 8 + x` with x, y the cell coordinates of block (cx, cy). */
  function BayerIndex(cx: int, cy: int): (i: int)
    ensures 0 <= i < 64
    ensures i == cy % 8 * 8 + cx % 8
  {
    CellIndex(CellCoord(cx), CellCoord(cy))
  }

  /** `bayerMatrix8x8[y * 8 + x] - 0.25`: the re-centred threshold of block
      (cx, cy). It is the reference Bayer rank of the cell, over 64, minus 0.25. */
  function Threshold(cx: int, cy: int): (t: real)
    ensures -0.25 <= t <= 47.0 / 64.0
    ensures t == BayerRank(cx % 8, cy % 8) as real / 64.0 - 0.25
  {
    Entry(BayerIndex(cx, cy)) - 0.25
  }

  /** `clamp(color + threshold * step - bias, 0.0, 1.0)` with
      `step = 1 / (colorNum - 1)`: the dithered channel before rounding. */
  function Clamped(c: real, threshold: real, colorNum: real): (v: real)
    requires colorNum != 1.0
    ensures 0.0 <= v <= 1.0
  {
    var step := 1.0 / (colorNum - 1.0);
    Clamp(c + threshold * step - Bias, 0.0, 1.0)
  }

  /** One channel of `dither`: the clamped value rounded to the nearest multiple
      of `1 / (colorNum - 1)`. */
  function QuantizeChannel(c: real, threshold: real, colorNum: real): (q: real)
    requires colorNum != 1.0
    ensures OnGrid(q, colorNum - 1.0)
    ensures colorNum > 1.0 ==> 0.0 <= q && HalfStepFrom(q, Clamped(c, threshold, colorNum), colorNum - 1.0)
  {
    Round(Clamped(c, threshold, colorNum), colorNum - 1.0)
  }

  /** `floor(v * m + 0.5) / m`: v rounded to the nearest multiple of 1 / m. */
  function Round(v: real, m: real): (r: real)
    requires m != 0.0
    ensures OnGrid(r, m)
    ensures m > 0.0 ==> HalfStepFrom(r, v, m)
    ensures m > 0.0 && v >= 0.0 ==> r >= 0.0
  {
    var k := (v * m + 0.5).Floor;
    assert k as real / m == Steps(k, m);
    if m > 0.0 then
      RoundBounds(v, m, k);
      k as real / m
    else
      k as real / m
  }

  /** k steps of size 1 / m. */
  function Steps(k: int, m: real): real
    requires m != 0.0
  {
    k as real / m
  }

  /** r is a whole number of steps 1 / m. */
  ghost predicate OnGrid(r: real, m: real)
    requires m != 0.0
  {
    exists k: int :: r == Steps(k, m)
  }

  /** r is within half a step 1 / m of v: rounding to the nearest multiple. */
  predicate HalfStepFrom(r: real, v: real, m: real)
    requires m != 0.0
  {
    v - 0.5 / m < r <= v + 0.5 / m
  }

  lemma RoundBounds(v: real, m: real, k: int)
    requires m > 0.0 && k == (v * m + 0.5).Floor
    ensures HalfStepFrom(k as real / m, v, m)
    ensures v >= 0.0 ==> k as real / m >= 0.0
  {
    var z := v * m + 0.5;
    FloorBounds(z);
    assert z / m == v + 0.5 / m;
    DivLe(k as real, z, m);
    DivLt(z, k as real + 1.0, m);
    assert (k as real + 1.0) / m == k as real / m + 1.0 / m;
    if v >= 0.0 {
      MulLe(0.0, v, m);
      DivLe(0.0, k as real, m);
    }
  }

  /** `dither(uv, color)`: the threshold of the block that uv falls in, applied
      to every channel, so that each output channel is that channel biased by
      the block's threshold, clamped and rounded to the nearest multiple of
      `1 / (colorNum - 1)`. */
  function Dither(uv: Vec2, color: Rgb, resolution: Vec2, colorNum: real, pixelSize: real): (out: Rgb)
    requires colorNum != 1.0 && pixelSize != 0.0
    ensures colorNum > 1.0 ==> RoundedFrom(out, color, BlockThreshold(uv, resolution, pixelSize), colorNum)
  {
    QuantizeColor(color, BlockThreshold(uv, resolution, pixelSize), colorNum)
  }

  /** The threshold of the block that uv falls in. */
  function BlockThreshold(uv: Vec2, resolution: Vec2, pixelSize: real): (t: real)
    requires pixelSize != 0.0
    ensures -0.25 <= t <= 47.0 / 64.0
  {
    Threshold(BlockCoord(uv.x, resolution.x, pixelSize), BlockCoord(uv.y, resolution.y, pixelSize))
  }

  /** Every channel of out is a whole number of steps `1 / (colorNum - 1)`,
      is not negative and lies within half a step
      `1 / (colorNum - 1)` of the same channel of color after threshold-add,
      bias and clamp. */
  ghost predicate RoundedFrom(out: Rgb, color: Rgb, threshold: real, colorNum: real)
    requires colorNum > 1.0
  {
    var m := colorNum - 1.0;
    OnGrid(out.r, m) && 0.0 <= out.r && HalfStepFrom(out.r, Clamped(color.r, threshold, colorNum), m) &&
    OnGrid(out.g, m) && 0.0 <= out.g && HalfStepFrom(out.g, Clamped(color.g, threshold, colorNum), m) &&
    OnGrid(out.b, m) && 0.0 <= out.b && HalfStepFrom(out.b, Clamped(color.b, threshold, colorNum), m)
  }

  /** The quantizer applied to every channel with one threshold. */
  function QuantizeColor(color: Rgb, threshold: real, colorNum: real): (out: Rgb)
    requires colorNum != 1.0
    ensures colorNum > 1.0 ==> RoundedFrom(out, color, threshold, colorNum)
  {
    Rgb(QuantizeChannel(color.r, threshold, colorNum),
        QuantizeChannel(color.g, threshold, colorNum),
        QuantizeChannel(color.b, threshold, colorNum))
  }

  /** `s * floor(u / s)`: one component of the block-snapped sampling
      coordinate. For a positive block size s it is the start of the block of
      width s that contains u. */
  function Snap(u: real, s: real): (r: real)
    requires s != 0.0
    ensures s > 0.0 ==> r <= u < r + s
    ensures s < 0.0 ==> r + s < u <= r
  {
    BlockBounds(u, s);
    s * (u / s).Floor as real
  }

  /** The block start s * floor(u / s) lies within one s of u. */
  lemma BlockBounds(u: real, s: real)
    requires s != 0.0
    ensures var r := s * (u / s).Floor as real;
      && (s > 0.0 ==> r <= u < r + s)
      && (s < 0.0 ==> r + s < u <= r)
  {
    var x := u / s;
    var q := x.Floor as real;
    FloorBounds(x);
    assert u == s * x;
    if s > 0.0 {
      LowerPos(u, s, x, q, s * q);
      UpperPos(u, s, x, q, s * q);
    } else {
      UpperNeg(u, s, x, q, s * q);
      LowerNeg(u, s, x, q, s * q);
    }
  }

  // The four bounds of BlockBounds, one product at a time.

  lemma LowerPos(u: real, s: real, x: real, q: real, r: real)
    requires 0.0 < s && u == s * x && q <= x && r == s * q
    ensures r <= u
  {
    MulLe(q, x, s);
  }

  lemma UpperPos(u: real, s: real, x: real, q: real, r: real)
    requires 0.0 < s && u == s * x && x < q + 1.0 && r == s * q
    ensures u < r + s
  {
    MulLt(x - q, 1.0, s);
    assert u - r == s * (x - q);
  }

  lemma UpperNeg(u: real, s: real, x: real, q: real, r: real)
    requires s < 0.0 && u == s * x && q <= x && r == s * q
    ensures u <= r
  {
    MulLe(q, x, -s);
    assert (-s) * q == -r;
    assert (-s) * x == -u;
  }

  lemma LowerNeg(u: real, s: real, x: real, q: real, r: real)
    requires s < 0.0 && u == s * x && x < q + 1.0 && r == s * q
    ensures r + s < u
  {
    MulLt(x - q, 1.0, -s);
    assert r - u == (-s) * (x - q);
  }

  /** `uvPixel = normalizedPixelSize * floor(vUv / normalizedPixelSize)` with
      `normalizedPixelSize = pixelSize / resolution`. */
  function SnappedUv(vUv: Vec2, resolution: Vec2, pixelSize: real): (uvPixel: Vec2)
    requires pixelSize != 0.0 && resolution.x != 0.0 && resolution.y != 0.0
    ensures pixelSize / resolution.x > 0.0 ==> uvPixel.x <= vUv.x < uvPixel.x + pixelSize / resolution.x
    ensures pixelSize / resolution.y > 0.0 ==> uvPixel.y <= vUv.y < uvPixel.y + pixelSize / resolution.y
  {
    Vec2(Snap(vUv.x, pixelSize / resolution.x), Snap(vUv.y, pixelSize / resolution.y))
  }

  /** `main` of the dither pass: sample tDiffuse at the block-snapped
      coordinate, dither the colour at the unsnapped vUv, keep the sampled
      alpha. */
  function DitherFragment(vUv: Vec2, tDiffuse: Vec2 -> Rgba, resolution: Vec2, colorNum: real, pixelSize: real): (fragColor: Rgba)
    requires colorNum != 1.0 && pixelSize != 0.0 && resolution.x != 0.0 && resolution.y != 0.0
    ensures fragColor.a == tDiffuse(SnappedUv(vUv, resolution, pixelSize)).a
  {
    var color := tDiffuse(SnappedUv(vUv, resolution, pixelSize));
    Rgba(Dither(vUv, color.rgb, resolution, colorNum, pixelSize), color.a)
  }

  // ---------------------------------------------------------------------------
  // Output levels

  /** Level k of n: k / (n - 1). */
  function Level(k: int, n: int): real
    requires n >= 2
  {
    k as real / (n as real - 1.0)
  }

  /** The levels Level(k, n) for k in 0..j-1. */
  ghost function LevelsBelow(n: int, j: int): set<real>
    requires n >= 2
  {
    set k | 0 <= k < j :: Level(k, n)
  }

  /** The colorNum levels k / (colorNum - 1), k in 0..colorNum-1. */
  ghost function Levels(n: int): set<real>
    requires n >= 2
  {
    LevelsBelow(n, n)
  }

  /** The level a channel is rounded to, for an integer colorNum >= 2. */
  function LevelIndex(c: real, threshold: real, n: int): (k: int)
    requires n >= 2
    ensures 0 <= k < n
    ensures QuantizeChannel(c, threshold, n as real) == Level(k, n)
  {
    RoundedInRange(Clamped(c, threshold, n as real), n);
    (Clamped(c, threshold, n as real) * (n as real - 1.0) + 0.5).Floor
  }

  lemma RoundedInRange(x: real, n: int)
    requires n >= 2 && 0.0 <= x <= 1.0
    ensures 0 <= (x * (n as real - 1.0) + 0.5).Floor < n
  {
    var m := n as real - 1.0;
    MulLe(0.0, x, m);
    MulLe(x, 1.0, m);
    FloorMonotone(0.5, x * m + 0.5);
    FloorMonotone(x * m + 0.5, m + 0.5);
    FloorShift(0.5, n - 1);
  }

  /** Levels are strictly increasing in k. */
  lemma LevelStrictlyIncreasing(k1: int, k2: int, n: int)
    requires n >= 2 && k1 < k2
    ensures Level(k1, n) < Level(k2, n)
  {
    DivLt(k1 as real, k2 as real, n as real - 1.0);
  }

  lemma ChannelIsLevel(c: real, t: real, n: int)
    requires n >= 2
    ensures QuantizeChannel(c, t, n as real) in Levels(n)
    ensures 0.0 <= QuantizeChannel(c, t, n as real) <= 1.0
    ensures n == 2 ==> QuantizeChannel(c, t, n as real) in {0.0, 1.0}
  {
    var k := LevelIndex(c, t, n);
    LevelIsMember(k, n);
  }

  /** Level(k, n) with k in 0..n-1 is one of the n levels and lies in [0, 1]. */
  lemma LevelIsMember(k: int, n: int)
    requires n >= 2 && 0 <= k < n
    ensures Level(k, n) in Levels(n)
    ensures 0.0 <= Level(k, n) <= 1.0
    ensures n == 2 ==> Level(k, n) in {0.0, 1.0}
  {
    assert Level(k, n) in LevelsBelow(n, n);
    LevelBounds(k, n);
  }

  lemma LevelBounds(k: int, n: int)
    requires n >= 2 && 0 <= k < n
    ensures 0.0 <= Level(k, n) <= 1.0
  {
    var m := n as real - 1.0;
    var q := k as real / m;
    DivLe(0.0, k as real, m);
    assert m * q == k as real;
    if q > 1.0 {
      MulLt(1.0, q, m);
      assert false;
    }
  }

  /** Every channel of the dither output is one of the colorNum levels, so it
      lies in [0, 1]; with colorNum == 2 the output is pure 0 or 1. */
  lemma DitherOutputIsLevel(uv: Vec2, color: Rgb, resolution: Vec2, n: int, pixelSize: real)
    requires n >= 2 && pixelSize != 0.0
    ensures var out := Dither(uv, color, resolution, n as real, pixelSize);
      && out.r in Levels(n) && out.g in Levels(n) && out.b in Levels(n)
      && 0.0 <= out.r <= 1.0 && 0.0 <= out.g <= 1.0 && 0.0 <= out.b <= 1.0
      && (n == 2 ==> out.r in {0.0, 1.0} && out.g in {0.0, 1.0} && out.b in {0.0, 1.0})
  {
    var t := BlockThreshold(uv, resolution, pixelSize);
    ChannelIsLevel(color.r, t, n);
    ChannelIsLevel(color.g, t, n);
    ChannelIsLevel(color.b, t, n);
  }

  /** Conversely every level is produced: whatever the threshold, the input
      colour level + bias - threshold / (n - 1) is rounded to that level. */
  lemma EveryLevelReached(k: int, t: real, n: int)
    requires n >= 2 && 0 <= k < n
    ensures QuantizeChannel(Level(k, n) + Bias - t / (n as real - 1.0), t, n as real) == Level(k, n)
  {
    ClampedAtLevel(k, t, n);
    RoundLevel(k, n);
  }

  lemma ClampedAtLevel(k: int, t: real, n: int)
    requires n >= 2 && 0 <= k < n
    ensures Clamped(Level(k, n) + Bias - t / (n as real - 1.0), t, n as real) == Level(k, n)
  {
    var m := n as real - 1.0;
    TimesReciprocal(t, m);
    DivLe(0.0, k as real, m);
    DivLe(k as real, m, m);
  }

  /** A level is a fixed point of rounding to multiples of 1 / (n - 1). */
  lemma RoundLevel(k: int, n: int)
    requires n >= 2
    ensures Round(Level(k, n), n as real - 1.0) == Level(k, n)
  {
    LevelTimesSteps(k, n);
    FloorShift(0.5, k);
  }

  lemma TimesReciprocal(t: real, m: real)
    requires m != 0.0
    ensures t * (1.0 / m) == t / m
  {
  }

  lemma LevelTimesSteps(k: int, n: int)
    requires n >= 2
    ensures Level(k, n) * (n as real - 1.0) == k as real
  {
  }

  /** |Levels(n)| == n: the output takes exactly colorNum distinct values. */
  lemma LevelsCount(n: int)
    requires n >= 2
    ensures |Levels(n)| == n
  {
    LevelsBelowCount(n, n);
  }

  lemma {:induction false} LevelsBelowCount(n: int, j: nat)
    requires n >= 2
    ensures |LevelsBelow(n, j)| == j
  {
    if j == 0 {
      assert LevelsBelow(n, j) == {};
    } else {
      LevelsBelowCount(n, j - 1);
      var top := Level(j - 1, n);
      assert LevelsBelow(n, j) == LevelsBelow(n, j - 1) + {top};
      if top in LevelsBelow(n, j - 1) {
        var k :| 0 <= k < j - 1 && Level(k, n) == top;
        LevelStrictlyIncreasing(k, j - 1, n);
        assert false;
      }
    }
  }

  /** The quantizer is monotone in the input colour (for colorNum > 1). */
  lemma QuantizeMonotone(c1: real, c2: real, t: real, colorNum: real)
    requires colorNum > 1.0 && c1 <= c2
    ensures QuantizeChannel(c1, t, colorNum) <= QuantizeChannel(c2, t, colorNum)
  {
    ClampedMonotone(c1, c2, t, colorNum);
    RoundMonotone(Clamped(c1, t, colorNum), Clamped(c2, t, colorNum), colorNum - 1.0);
  }

  lemma ClampedMonotone(c1: real, c2: real, t: real, colorNum: real)
    requires colorNum != 1.0 && c1 <= c2
    ensures Clamped(c1, t, colorNum) <= Clamped(c2, t, colorNum)
  {
  }

  /** Rounding to multiples of 1 / m is monotone for m > 0. */
  lemma RoundMonotone(a1: real, a2: real, m: real)
    requires 0.0 < m && a1 <= a2
    ensures Round(a1, m) <= Round(a2, m)
  {
    MulLe(a1, a2, m);
    var b1, b2 := a1 * m + 0.5, a2 * m + 0.5;
    FloorMonotone(b1, b2);
    DivLe(b1.Floor as real, b2.Floor as real, m);
  }

  // ---------------------------------------------------------------------------
  // Periodicity and blocks

  /** Moving a coordinate by 8 * pixelSize * m pixels moves its block by 8 * m. */
  lemma BlockShift(u: real, u2: real, resolution: real, pixelSize: real, m: int)
    requires pixelSize != 0.0
    requires u2 * resolution == u * resolution + 8.0 * pixelSize * m as real
    ensures BlockCoord(u2, resolution, pixelSize) == BlockCoord(u, resolution, pixelSize) + 8 * m
  {
    var z := u * resolution / pixelSize;
    assert u2 * resolution / pixelSize == z + (8 * m) as real;
    FloorShift(z, 8 * m);
  }

  /** The threshold depends on a block only through its coordinates mod 8. */
  lemma ThresholdPeriodic(cx: int, cy: int, mx: int, my: int)
    ensures Threshold(cx + 8 * mx, cy + 8 * my) == Threshold(cx, cy)
  {
    EighthShift(cx, mx);
    EighthShift(cy, my);
    var x, y := cx % 8, cy % 8;
    assert Threshold(cx + 8 * mx, cy + 8 * my) == BayerRank(x, y) as real / 64.0 - 0.25;
  }

  /** ThresholdPeriodic for block coordinates already named. */
  lemma ShiftedThreshold(cx: int, cy: int, cx2: int, cy2: int, mx: int, my: int)
    requires cx2 == cx + 8 * mx && cy2 == cy + 8 * my
    ensures Threshold(cx2, cy2) == Threshold(cx, cy)
  {
    EighthShift(cx, mx);
    EighthShift(cy, my);
    assert cx2 % 8 == cx % 8 && cy2 % 8 == cy % 8;
  }

  lemma EighthShift(c: int, m: int)
    ensures (c + 8 * m) % 8 == c % 8
  {
  }

  /** Shifting a pixel by a multiple of 8 * pixelSize in each axis leaves its
      threshold unchanged. */
  lemma BlockThresholdPeriodic(uv: Vec2, uv2: Vec2, resolution: Vec2, pixelSize: real, mx: int, my: int)
    requires pixelSize != 0.0
    requires uv2.x * resolution.x == uv.x * resolution.x + 8.0 * pixelSize * mx as real
    requires uv2.y * resolution.y == uv.y * resolution.y + 8.0 * pixelSize * my as real
    ensures BlockThreshold(uv2, resolution, pixelSize) == BlockThreshold(uv, resolution, pixelSize)
  {
    var cx, cy := BlockCoord(uv.x, resolution.x, pixelSize), BlockCoord(uv.y, resolution.y, pixelSize);
    var cx2, cy2 := BlockCoord(uv2.x, resolution.x, pixelSize), BlockCoord(uv2.y, resolution.y, pixelSize);
    BlockShift(uv.x, uv2.x, resolution.x, pixelSize, mx);
    BlockShift(uv.y, uv2.y, resolution.y, pixelSize, my);
    ShiftedThreshold(cx, cy, cx2, cy2, mx, my);
  }

  /** Hence the dither of an equal input colour is unchanged by such a shift. */
  lemma DitherPeriodic(uv: Vec2, uv2: Vec2, color: Rgb, resolution: Vec2, colorNum: real, pixelSize: real, mx: int, my: int)
    requires colorNum != 1.0 && pixelSize != 0.0
    requires uv2.x * resolution.x == uv.x * resolution.x + 8.0 * pixelSize * mx as real
    requires uv2.y * resolution.y == uv.y * resolution.y + 8.0 * pixelSize * my as real
    ensures Dither(uv2, color, resolution, colorNum, pixelSize) == Dither(uv, color, resolution, colorNum, pixelSize)
  {
    BlockThresholdPeriodic(uv, uv2, resolution, pixelSize, mx, my);
  }

  /** Snapping an already-snapped coordinate returns it unchanged. */
  lemma SnapIdempotent(u: real, s: real)
    requires s != 0.0
    ensures Snap(Snap(u, s), s) == Snap(u, s)
  {
    var q := (u / s).Floor;
    assert Snap(u, s) == s * q as real;
    MultipleDivides(s, q);
    assert (Snap(u, s) / s).Floor == q;
  }

  /** Every channel of the dither pass's output is one of the colorNum levels. */
  lemma FragmentIsLevel(vUv: Vec2, tDiffuse: Vec2 -> Rgba, resolution: Vec2, n: int, pixelSize: real)
    requires n >= 2 && pixelSize != 0.0 && resolution.x != 0.0 && resolution.y != 0.0
    ensures var out := DitherFragment(vUv, tDiffuse, resolution, n as real, pixelSize).rgb;
      out.r in Levels(n) && out.g in Levels(n) && out.b in Levels(n)
  {
    DitherOutputIsLevel(vUv, tDiffuse(SnappedUv(vUv, resolution, pixelSize)).rgb, resolution, n, pixelSize);
  }

  /** A fractional colorNum leaves the level guarantees: with colorNum 2.5 a
      saturated channel rounds to 4/3, above 1, at every threshold of the table. */
  lemma FractionalColorNumOvershoots(cx: int, cy: int)
    ensures QuantizeChannel(10.0, Threshold(cx, cy), 2.5) == 4.0 / 3.0
  {
    var t := Threshold(cx, cy);
    assert Clamped(10.0, t, 2.5) == 1.0;
    assert (1.0 * 1.5 + 0.5).Floor == 2;
  }

  /** The sampling coordinate of main is a fixed point of the snap. */
  lemma SnappedUvIdempotent(vUv: Vec2, resolution: Vec2, pixelSize: real)
    requires pixelSize != 0.0 && resolution.x != 0.0 && resolution.y != 0.0
    ensures SnappedUv(SnappedUv(vUv, resolution, pixelSize), resolution, pixelSize)
         == SnappedUv(vUv, resolution, pixelSize)
  {
    SnapIdempotent(vUv.x, pixelSize / resolution.x);
    SnapIdempotent(vUv.y, pixelSize / resolution.y);
  }

  /** floor((s * q) / s) == q for an integer q. */
  lemma MultipleDivides(s: real, q: int)
    requires s != 0.0
    ensures ((s * q as real) / s).Floor == q
  {
    var r := s * q as real;
    assert r / s == q as real;
    FloorOfInt(q);
  }

  /** The snapped coordinate of the sampling step is the start of the block the
      threshold step uses: `floor(vUv / (pixelSize / resolution))` is
      `floor(vUv * resolution / pixelSize)`. */
  lemma SnapIsBlockStart(u: real, resolution: real, pixelSize: real)
    requires pixelSize != 0.0 && resolution != 0.0
    ensures Snap(u, pixelSize / resolution) == (pixelSize / resolution) * BlockCoord(u, resolution, pixelSize) as real
  {
    DivByQuotient(u, pixelSize, resolution);
  }

  lemma DivByQuotient(u: real, p: real, res: real)
    requires p != 0.0 && res != 0.0
    ensures u / (p / res) == u * res / p
  {
  }

  /** All pixels of one pixelSize block render the same colour: they sample
      the same snapped coordinate and read the same threshold. */
  lemma BlockIsUniform(uv: Vec2, uv2: Vec2, tDiffuse: Vec2 -> Rgba, resolution: Vec2, colorNum: real, pixelSize: real)
    requires colorNum != 1.0 && pixelSize != 0.0 && resolution.x != 0.0 && resolution.y != 0.0
    requires BlockCoord(uv2.x, resolution.x, pixelSize) == BlockCoord(uv.x, resolution.x, pixelSize)
    requires BlockCoord(uv2.y, resolution.y, pixelSize) == BlockCoord(uv.y, resolution.y, pixelSize)
    ensures DitherFragment(uv2, tDiffuse, resolution, colorNum, pixelSize) == DitherFragment(uv, tDiffuse, resolution, colorNum, pixelSize)
  {
    SnapIsBlockStart(uv.x, resolution.x, pixelSize);
    SnapIsBlockStart(uv2.x, resolution.x, pixelSize);
    SnapIsBlockStart(uv.y, resolution.y, pixelSize);
    SnapIsBlockStart(uv2.y, resolution.y, pixelSize);
    assert SnappedUv(uv2, resolution, pixelSize) == SnappedUv(uv, resolution, pixelSize);
  }

  /** A solid input image dithers to a pattern that repeats every
      8 * pixelSize pixels in both axes (8 Bayer cells of pixelSize pixels). */
  lemma SolidImagePeriodic(uv: Vec2, uv2: Vec2, solid: Rgba, resolution: Vec2, colorNum: real, pixelSize: real, mx: int, my: int)
    requires colorNum != 1.0 && pixelSize != 0.0 && resolution.x != 0.0 && resolution.y != 0.0
    requires uv2.x * resolution.x == uv.x * resolution.x + 8.0 * pixelSize * mx as real
    requires uv2.y * resolution.y == uv.y * resolution.y + 8.0 * pixelSize * my as real
    ensures DitherFragment(uv2, _ => solid, resolution, colorNum, pixelSize)
         == DitherFragment(uv, _ => solid, resolution, colorNum, pixelSize)
  {
    DitherPeriodic(uv, uv2, solid.rgb, resolution, colorNum, pixelSize, mx, my);
  }
}
