/** The photon shot-noise effect (src/PhotonNoiseEffect.h): one scale
    parameter (photons per unit signal) and a frame counter. */
module PhotonNoise {
  import opened NoiseEffects

  const DefaultPhotonScale: real := 100.0

  class PhotonNoiseEffect {
    const effect: NoiseEffect
    var photonScale: real
    const uPhotonScale: FloatUniform
    const uFrameNumber: IntUniform
    const uResolution: Vec2Uniform
    /** Every object this effect owns. */
    ghost const Repr: set<object>

    ghost predicate Valid()
      reads this, Repr
    {
      Repr == {this, effect, uPhotonScale, uFrameNumber, uResolution} &&
      uPhotonScale.value == photonScale &&
      effect.frameUniform == uFrameNumber && effect.name == "PhotonNoise"
    }

    /** The range the setter establishes. */
    ghost predicate InRange()
      reads this
    {
      photonScale >= 1.0
    }

    /** The constructor stores the scale as given, without clamping. */
    constructor (fragmentSource: StdString, photonScale: real := DefaultPhotonScale)
      ensures Valid() && fresh(Repr)
      ensures this.photonScale == photonScale
      ensures effect.enabled && effect.fragmentSource == fragmentSource
      ensures uFrameNumber.value == 0
      ensures uResolution.x == 1280.0 && uResolution.y == 720.0
      ensures InRange() <==> photonScale >= 1.0
    {
      this.photonScale := photonScale;
      uPhotonScale := new FloatUniform(photonScale);
      var frame := new IntUniform(0);
      uFrameNumber := frame;
      uResolution := new Vec2Uniform(1280.0, 720.0);
      var e := new NoiseEffect("PhotonNoise", fragmentSource, frame);
      effect := e;
      Repr := {this, e, uPhotonScale, frame, uResolution};
    }

    function PhotonScale(): real
      reads this
    {
      photonScale
    }

    /** Stores max(1, s): at least 1, and exactly s when s >= 1. */
    method SetPhotonScale(s: real)
      requires Valid()
      modifies this`photonScale, uPhotonScale`value
      ensures Valid() && InRange()
      ensures PhotonScale() == MaxReal(1.0, s)
      ensures s >= 1.0 ==> PhotonScale() == s
    {
      photonScale := MaxReal(1.0, s);
      uPhotonScale.value := photonScale;
    }

    method SetResolution(w: real, h: real)
      requires Valid()
      modifies uResolution
      ensures Valid()
      ensures uResolution.x == w && uResolution.y == h
    {
      uResolution.x := w;
      uResolution.y := h;
    }
  }
}
