/** The dark-signal effect (src/DarkNoiseEffect.h): dark current, dark-signal
    non-uniformity (DSNU) and hot pixels, with a frame counter for temporal
    noise. */
module DarkNoise {
  import opened NoiseEffects

  const DefaultDarkCurrent: real := 0.005
  const DefaultDSNUStrength: real := 0.003
  const DefaultHotPixelProbability: real := 0.0005
  const DefaultHotPixelStrength: real := 50.0

  class DarkNoiseEffect {
    const effect: NoiseEffect
    var darkCurrent: real
    var dsnuStrength: real
    var hotPixelProbability: real
    var hotPixelStrength: real
    const uDarkCurrent: FloatUniform
    const uDSNU: FloatUniform
    const uHotPixelProb: FloatUniform
    const uHotPixelStr: FloatUniform
    const uFrameNumber: IntUniform
    const uResolution: Vec2Uniform
    /** Every object this effect owns. */
    ghost const Repr: set<object>

    /** Each uniform mirrors its parameter; the four parameter uniforms are
        distinct objects; the update callback drives the frame uniform. */
    ghost predicate Valid()
      reads this, Repr
    {
      Repr == {this, effect, uDarkCurrent, uDSNU, uHotPixelProb, uHotPixelStr, uFrameNumber, uResolution} &&
      uDarkCurrent.value == darkCurrent &&
      uDSNU.value == dsnuStrength &&
      uHotPixelProb.value == hotPixelProbability &&
      uHotPixelStr.value == hotPixelStrength &&
      uDarkCurrent != uDSNU && uDarkCurrent != uHotPixelProb && uDarkCurrent != uHotPixelStr &&
      uDSNU != uHotPixelProb && uDSNU != uHotPixelStr && uHotPixelProb != uHotPixelStr &&
      effect.frameUniform == uFrameNumber && effect.name == "DarkNoise"
    }

    /** The range every setter establishes. */
    ghost predicate InRange()
      reads this
    {
      darkCurrent >= 0.0 && dsnuStrength >= 0.0 &&
      0.0 <= hotPixelProbability <= 1.0 && hotPixelStrength >= 0.0
    }

    /** The constructor stores its arguments as given, without clamping; the
        frame uniform starts at 0 and the resolution at 1280x720. */
    constructor (fragmentSource: StdString,
                 darkCurrent: real := DefaultDarkCurrent,
                 dsnuStrength: real := DefaultDSNUStrength,
                 hotPixelProb: real := DefaultHotPixelProbability,
                 hotPixelStr: real := DefaultHotPixelStrength)
      ensures Valid() && fresh(Repr)
      ensures this.darkCurrent == darkCurrent && this.dsnuStrength == dsnuStrength
      ensures this.hotPixelProbability == hotPixelProb && this.hotPixelStrength == hotPixelStr
      ensures effect.enabled && effect.fragmentSource == fragmentSource
      ensures uFrameNumber.value == 0
      ensures uResolution.x == 1280.0 && uResolution.y == 720.0
      ensures InRange() <==> darkCurrent >= 0.0 && dsnuStrength >= 0.0 &&
                             0.0 <= hotPixelProb <= 1.0 && hotPixelStr >= 0.0
    {
      this.darkCurrent := darkCurrent;
      this.dsnuStrength := dsnuStrength;
      this.hotPixelProbability := hotPixelProb;
      this.hotPixelStrength := hotPixelStr;
      uDarkCurrent := new FloatUniform(darkCurrent);
      uDSNU := new FloatUniform(dsnuStrength);
      uHotPixelProb := new FloatUniform(hotPixelProb);
      uHotPixelStr := new FloatUniform(hotPixelStr);
      var frame := new IntUniform(0);
      uFrameNumber := frame;
      uResolution := new Vec2Uniform(1280.0, 720.0);
      var e := new NoiseEffect("DarkNoise", fragmentSource, frame);
      effect := e;
      Repr := {this, e, uDarkCurrent, uDSNU, uHotPixelProb, uHotPixelStr, frame, uResolution};
    }

    function DarkCurrent(): real
      reads this
    {
      darkCurrent
    }

    function DSNUStrength(): real
      reads this
    {
      dsnuStrength
    }

    function HotPixelProbability(): real
      reads this
    {
      hotPixelProbability
    }

    function HotPixelStrength(): real
      reads this
    {
      hotPixelStrength
    }

    /** Stores max(0, v); changes only the dark current and its uniform. */
    method SetDarkCurrent(v: real)
      requires Valid()
      modifies this`darkCurrent, uDarkCurrent`value
      ensures Valid()
      ensures DarkCurrent() == MaxReal(0.0, v) && DarkCurrent() >= 0.0
      ensures v >= 0.0 ==> DarkCurrent() == v
      ensures old(InRange()) ==> InRange()
    {
      darkCurrent := MaxReal(0.0, v);
      uDarkCurrent.value := darkCurrent;
    }

    /** Stores max(0, v); changes only the DSNU strength and its uniform. */
    method SetDSNUStrength(v: real)
      requires Valid()
      modifies this`dsnuStrength, uDSNU`value
      ensures Valid()
      ensures DSNUStrength() == MaxReal(0.0, v) && DSNUStrength() >= 0.0
      ensures v >= 0.0 ==> DSNUStrength() == v
      ensures old(InRange()) ==> InRange()
    {
      dsnuStrength := MaxReal(0.0, v);
      uDSNU.value := dsnuStrength;
    }

    /** Stores v clamped into [0, 1]; changes only the hot-pixel probability
        and its uniform. */
    method SetHotPixelProbability(v: real)
      requires Valid()
      modifies this`hotPixelProbability, uHotPixelProb`value
      ensures Valid()
      ensures HotPixelProbability() == ClampReal(v, 0.0, 1.0)
      ensures 0.0 <= HotPixelProbability() <= 1.0
      ensures 0.0 <= v <= 1.0 ==> HotPixelProbability() == v
      ensures old(InRange()) ==> InRange()
    {
      hotPixelProbability := ClampReal(v, 0.0, 1.0);
      uHotPixelProb.value := hotPixelProbability;
    }

    /** Stores max(0, v); changes only the hot-pixel strength and its
        uniform. */
    method SetHotPixelStrength(v: real)
      requires Valid()
      modifies this`hotPixelStrength, uHotPixelStr`value
      ensures Valid()
      ensures HotPixelStrength() == MaxReal(0.0, v) && HotPixelStrength() >= 0.0
      ensures v >= 0.0 ==> HotPixelStrength() == v
      ensures old(InRange()) ==> InRange()
    {
      hotPixelStrength := MaxReal(0.0, v);
      uHotPixelStr.value := hotPixelStrength;
    }

    method SetResolution(w: real, h: real)
      requires Valid()
      modifies uResolution
      ensures Valid()
      ensures uResolution.x == w && uResolution.y == h
    {
      uResolution.x := w;
      uResolution.y := h;
    }
  }
}
