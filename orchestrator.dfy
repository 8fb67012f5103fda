/** The `Dither` effect object and its post-processing `DitherPass`: how the
    constructor options are resolved, what each animation frame writes to the
    wave shader's `time` uniform, and what a window resize writes to the
    resolution uniforms, the render target and the mesh scale. The Three.js
    scene, camera, renderer and draw calls are not modelled; the container's
    size, the clock reading and the frustum height are parameters. */
module Orchestrator {
  import opened Common
  import WaveShader

  /** `renderer.setPixelRatio(1)`: the pixel ratio every later
      `renderer.getPixelRatio()` returns. */
  const PixelRatio: real := 1.0

  const DefaultWaveSpeed: real := 0.05
  const DefaultWaveFrequency: real := 3.0
  const DefaultWaveAmplitude: real := 0.3
  const DefaultWaveColor: Rgb := Rgb(0.5, 0.5, 0.5)
  const DefaultColorNum: real := 4.0
  const DefaultPixelSize: real := 2.0

  /** The `options` object handed to the constructor; every field may be missing. */
  datatype Options = Options(
    waveSpeed: Option<real>,
    waveFrequency: Option<real>,
    waveAmplitude: Option<real>,
    waveColor: Option<Rgb>,
    colorNum: Option<real>,
    pixelSize: Option<real>,
    disableAnimation: Option<bool>)

  /** `this.options` after resolution: every field present. */
  datatype Config = Config(
    waveSpeed: real,
    waveFrequency: real,
    waveAmplitude: real,
    waveColor: Rgb,
    colorNum: real,
    pixelSize: real,
    disableAnimation: bool)

  /** A number option is falsy in JavaScript when it is missing or 0. */
  predicate Falsy(v: Option<real>) {
    v.None? || v.value == 0.0
  }

  /** `value || fallback` for a number option. */
  function OrNumber(v: Option<real>, fallback: real): real {
    if Falsy(v) then fallback else v.value
  }

  /** The option resolution of the constructor: a supplied value is kept unless
      it is falsy, in which case the default takes its place. An array is never
      falsy, so a supplied colour is always kept; `disableAnimation` is true only
      when `true` was supplied. */
  function Resolve(o: Options): (c: Config)
    ensures !Falsy(o.waveSpeed) ==> c.waveSpeed == o.waveSpeed.value
    ensures Falsy(o.waveSpeed) ==> c.waveSpeed == DefaultWaveSpeed
    ensures !Falsy(o.waveFrequency) ==> c.waveFrequency == o.waveFrequency.value
    ensures Falsy(o.waveFrequency) ==> c.waveFrequency == DefaultWaveFrequency
    ensures !Falsy(o.waveAmplitude) ==> c.waveAmplitude == o.waveAmplitude.value
    ensures Falsy(o.waveAmplitude) ==> c.waveAmplitude == DefaultWaveAmplitude
    ensures o.waveColor.Some? ==> c.waveColor == o.waveColor.value
    ensures o.waveColor.None? ==> c.waveColor == DefaultWaveColor
    ensures !Falsy(o.colorNum) ==> c.colorNum == o.colorNum.value
    ensures Falsy(o.colorNum) ==> c.colorNum == DefaultColorNum
    ensures !Falsy(o.pixelSize) ==> c.pixelSize == o.pixelSize.value
    ensures Falsy(o.pixelSize) ==> c.pixelSize == DefaultPixelSize
    ensures c.disableAnimation <==> o.disableAnimation == Some(true)
  {
    Config(
      OrNumber(o.waveSpeed, DefaultWaveSpeed),
      OrNumber(o.waveFrequency, DefaultWaveFrequency),
      OrNumber(o.waveAmplitude, DefaultWaveAmplitude),
      if o.waveColor.Some? then o.waveColor.value else DefaultWaveColor,
      OrNumber(o.colorNum, DefaultColorNum),
      OrNumber(o.pixelSize, DefaultPixelSize),
      o.disableAnimation == Some(true))
  }

  /** A resolved number option is never 0: in particular the dither pass never
      divides by a zero `pixelSize`. */
  predicate NonzeroNumbers(c: Config) {
    c.waveSpeed != 0.0 && c.waveFrequency != 0.0 && c.waveAmplitude != 0.0 &&
    c.colorNum != 0.0 && c.pixelSize != 0.0
  }

  lemma ResolvedNumbersNonzero(o: Options)
    ensures NonzeroNumbers(Resolve(o))
  {
  }

  /** An explicit `waveAmplitude: 0` cannot switch the waves' octave decay
      off: it resolves to the default 0.3. */
  lemma ExplicitZeroAmplitude(o: Options)
    requires o.waveAmplitude == Some(0.0)
    ensures Resolve(o).waveAmplitude == DefaultWaveAmplitude
  {
  }

  /** The options object that supplies every field of c. */
  function Supplied(c: Config): Options {
    Options(Some(c.waveSpeed), Some(c.waveFrequency), Some(c.waveAmplitude), Some(c.waveColor),
            Some(c.colorNum), Some(c.pixelSize), Some(c.disableAnimation))
  }

  /** Resolution is idempotent: resolving the resolved options again changes nothing. */
  lemma ResolveIdempotent(o: Options)
    ensures Resolve(Supplied(Resolve(o))) == Resolve(o)
  {
    ResolvedNumbersNonzero(o);
  }

  /** The value `animate` leaves in the `time` uniform: the clock's elapsed
      time, unless animation is disabled, in which case the previous value. */
  function FrameTime(previous: real, disableAnimation: bool, elapsed: real): (t: real)
    ensures disableAnimation ==> t == previous
    ensures !disableAnimation ==> t == elapsed
  {
    if disableAnimation then previous else elapsed
  }

  /** The `time` uniform after one frame per clock reading in `readings`:
      always its starting value or one of the readings. */
  function TimeAfterFrames(time: real, disableAnimation: bool, readings: seq<real>): (t: real)
    ensures t == time || t in readings
    decreases |readings|
  {
    if |readings| == 0 then time
    else TimeAfterFrames(FrameTime(time, disableAnimation, readings[0]), disableAnimation, readings[1..])
  }

  /** With animation disabled the time uniform never moves, however many frames run. */
  lemma {:induction false} FrozenTime(time: real, readings: seq<real>)
    ensures TimeAfterFrames(time, true, readings) == time
    decreases |readings|
  {
    if |readings| > 0 {
      FrozenTime(time, readings[1..]);
    }
  }

  /** With animation enabled the time uniform is the latest clock reading. */
  lemma {:induction false} LiveTimeTracksClock(time: real, readings: seq<real>)
    requires |readings| > 0
    ensures TimeAfterFrames(time, false, readings) == readings[|readings| - 1]
    decreases |readings|
  {
    if |readings| > 1 {
      LiveTimeTracksClock(readings[0], readings[1..]);
    }
  }

  /** `mesh.scale` after a resize to (width, height): the frustum width
      `frustumHeight * aspect`, the frustum height and 1. */
  function MeshScale(width: real, height: real, frustumHeight: real): (s: Vec3)
    requires height != 0.0 && frustumHeight > 0.0
    ensures s.y == frustumHeight && s.z == 1.0
    ensures s.x / s.y == width / height
  {
    var aspect := width / height;
    CancelFactor(aspect, frustumHeight);
    Vec3(frustumHeight * aspect, frustumHeight, 1.0)
  }

  lemma CancelFactor(a: real, s: real)
    requires s != 0.0
    ensures (s * a) / s == a
  {
  }

  /** The part of the effect's state a resize writes. */
  datatype Viewport = Viewport(
    waveResolution: Vec2,
    passResolution: Vec2,
    renderTarget: Vec2,
    meshScale: Vec3)

  /** The viewport `onWindowResize` leaves behind for a container of size
      (width, height). Both resolution uniforms are the device-pixel size, the
      render target is the CSS-pixel size (the same at pixel ratio 1), and the
      mesh is stretched to the container's aspect ratio. It depends on the new
      size only, so a second resize to the same size changes nothing. */
  function Resized(width: real, height: real, frustumHeight: real): (v: Viewport)
    requires height != 0.0 && frustumHeight > 0.0
    ensures v.waveResolution == v.passResolution == v.renderTarget == Vec2(width, height)
    ensures v.meshScale.y == frustumHeight && v.meshScale.z == 1.0
    ensures v.meshScale.x / v.meshScale.y == width / height
  {
    var device := Vec2(width * PixelRatio, height * PixelRatio);
    Viewport(device, device, Vec2(width, height), MeshScale(width, height, frustumHeight))
  }

  /** The post-processing pass; of its uniforms only the ones the shader
      computes with are kept (the input texture is bound at draw time). */
  class DitherPass {
    var resolution: Vec2
    const colorNum: real
    const pixelSize: real

    /** Parameter defaults 4 and 2 apply only to a missing argument: an
        explicit 0 is kept. The resolution starts as `new Vector2()`, (0, 0). */
    constructor(colorNum: Option<real>, pixelSize: Option<real>)
      ensures colorNum.Some? ==> this.colorNum == colorNum.value
      ensures colorNum.None? ==> this.colorNum == DefaultColorNum
      ensures pixelSize.Some? ==> this.pixelSize == pixelSize.value
      ensures pixelSize.None? ==> this.pixelSize == DefaultPixelSize
      ensures resolution == Vec2(0.0, 0.0)
    {
      this.colorNum := if colorNum.Some? then colorNum.value else DefaultColorNum;
      this.pixelSize := if pixelSize.Some? then pixelSize.value else DefaultPixelSize;
      resolution := Vec2(0.0, 0.0);
    }

    /** `setSize(width, height)`: sets the resolution uniform and nothing else. */
    method SetSize(width: real, height: real)
      modifies this
      ensures resolution == Vec2(width, height)
    {
      resolution := Vec2(width, height);
    }
  }

  /** The `Dither` effect object. */
  class Dither {
    const options: Config
    /** `2 * tan(37.5 degrees) * 6`, the camera frustum's height at the plane. */
    const frustumHeight: real
    var waveUniforms: WaveShader.WaveUniforms
    var renderTarget: Vec2
    var meshScale: Vec3
    const ditherPass: DitherPass

    /** What every method keeps: both resolution uniforms are the render
        target's size in device pixels, and the uniforms hold the resolved
        options. */
    predicate Valid()
      reads this, ditherPass
    {
      frustumHeight > 0.0 &&
      waveUniforms.resolution == ditherPass.resolution &&
      waveUniforms.resolution == Vec2(renderTarget.x * PixelRatio, renderTarget.y * PixelRatio) &&
      waveUniforms.waveSpeed == options.waveSpeed &&
      waveUniforms.waveFrequency == options.waveFrequency &&
      waveUniforms.waveAmplitude == options.waveAmplitude &&
      waveUniforms.waveColor == options.waveColor &&
      ditherPass.colorNum == options.colorNum &&
      ditherPass.pixelSize == options.pixelSize
    }

    function View(): Viewport
      reads this, ditherPass
    {
      Viewport(waveUniforms.resolution, ditherPass.resolution, renderTarget, meshScale)
    }

    /** `new Dither(container, options)`: resolve the options, build the
        uniforms from them and the container's size (width, height), then run
        the first frame at clock reading `elapsed`. The mesh keeps its default
        scale (1, 1, 1) until the first resize. */
    constructor(o: Options, width: real, height: real, frustumHeight: real, elapsed: real)
      requires frustumHeight > 0.0
      ensures Valid() && fresh(ditherPass)
      ensures options == Resolve(o) && this.frustumHeight == frustumHeight
      ensures waveUniforms.time == FrameTime(0.0, options.disableAnimation, elapsed)
      ensures renderTarget == Vec2(width, height) && waveUniforms.resolution == Vec2(width, height)
      ensures meshScale == Vec3(1.0, 1.0, 1.0)
    {
      var c := Resolve(o);
      options := c;
      this.frustumHeight := frustumHeight;
      waveUniforms := WaveShader.WaveUniforms(
        Vec2(width * PixelRatio, height * PixelRatio), 0.0,
        c.waveSpeed, c.waveFrequency, c.waveAmplitude, c.waveColor);
      meshScale := Vec3(1.0, 1.0, 1.0);
      renderTarget := Vec2(width, height);
      var pass := new DitherPass(Some(c.colorNum), Some(c.pixelSize));
      pass.SetSize(width * PixelRatio, height * PixelRatio);
      ditherPass := pass;
      new;
      Animate(elapsed);
    }

    /** One frame of `animate`: only the `time` uniform changes, and only
        while animation is enabled. */
    method Animate(elapsed: real)
      requires Valid()
      modifies this
      ensures Valid()
      ensures waveUniforms == old(waveUniforms).(time := FrameTime(old(waveUniforms.time), options.disableAnimation, elapsed))
      ensures renderTarget == old(renderTarget) && meshScale == old(meshScale)
    {
      if !options.disableAnimation {
        waveUniforms := waveUniforms.(time := elapsed);
      }
    }

    /** `onWindowResize` for a container now (width, height) in size: the new
        viewport is Resized(width, height), whatever it was before, and the
        time and option uniforms are untouched. */
    method OnWindowResize(width: real, height: real)
      requires Valid() && height != 0.0
      modifies this, ditherPass
      ensures Valid()
      ensures View() == Resized(width, height, frustumHeight)
      ensures waveUniforms == old(waveUniforms).(resolution := Vec2(width, height))
    {
      renderTarget := Vec2(width, height);
      var dpr := PixelRatio;
      waveUniforms := waveUniforms.(resolution := Vec2(width * dpr, height * dpr));
      ditherPass.SetSize(width * dpr, height * dpr);
      var aspect := width / height;
      var frustumWidth := frustumHeight * aspect;
      meshScale := Vec3(frustumWidth, frustumHeight, 1.0);
    }
  }
}
