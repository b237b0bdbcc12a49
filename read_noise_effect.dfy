/** The read-out noise effect (src/ReadNoiseEffect.h): one Gaussian
    standard-deviation parameter and a frame counter. */
module ReadNoise {
  import opened NoiseEffects

  const DefaultReadNoise: real := 0.01

  class ReadNoiseEffect {
    const effect: NoiseEffect
    var readNoise: real
    const uReadNoise: FloatUniform
    const uFrameNumber: IntUniform
    const uResolution: Vec2Uniform
    /** Every object this effect owns. */
    ghost const Repr: set<object>

    ghost predicate Valid()
      reads this, Repr
    {
      Repr == {this, effect, uReadNoise, uFrameNumber, uResolution} &&
      uReadNoise.value == readNoise &&
      effect.frameUniform == uFrameNumber && effect.name == "ReadNoise"
    }

    /** The range the setter establishes. */
    ghost predicate InRange()
      reads this
    {
      readNoise >= 0.0
    }

    /** The constructor stores the parameter as given, without clamping. */
    constructor (fragmentSource: StdString, readNoise: real := DefaultReadNoise)
      ensures Valid() && fresh(Repr)
      ensures this.readNoise == readNoise
      ensures effect.enabled && effect.fragmentSource == fragmentSource
      ensures uFrameNumber.value == 0
      ensures uResolution.x == 1280.0 && uResolution.y == 720.0
      ensures InRange() <==> readNoise >= 0.0
    {
      this.readNoise := readNoise;
      uReadNoise := new FloatUniform(readNoise);
      var frame := new IntUniform(0);
      uFrameNumber := frame;
      uResolution := new Vec2Uniform(1280.0, 720.0);
      var e := new NoiseEffect("ReadNoise", fragmentSource, frame);
      effect := e;
      Repr := {this, e, uReadNoise, frame, uResolution};
    }

    function ReadNoise(): real
      reads this
    {
      readNoise
    }

    /** Stores max(0, v): never negative, and exactly v when v >= 0. */
    method SetReadNoise(v: real)
      requires Valid()
      modifies this`readNoise, uReadNoise`value
      ensures Valid() && InRange()
      ensures ReadNoise() == MaxReal(0.0, v)
      ensures v >= 0.0 ==> ReadNoise() == v
    {
      readNoise := MaxReal(0.0, v);
      uReadNoise.value := readNoise;
    }

    method SetResolution(w: real, h: real)
      requires Valid()
      modifies uResolution
      ensures Valid()
      ensures uResolution.x == w && uResolution.y == h
    {
      uResolution.x := w;
      uResolution.y := h;
    }
  }
}
