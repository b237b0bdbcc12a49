/** The photo-response non-uniformity effect (src/PRNUEffect.h): one
    multiplicative gain-spread parameter and no temporal component. */
module PRNU {
  import opened NoiseEffects

  const DefaultPRNUStrength: real := 0.01

  class PRNUEffect {
    const effect: NoiseEffect
    var prnuStrength: real
    const uPRNU: FloatUniform
    const uResolution: Vec2Uniform
    /** Every object this effect owns. */
    ghost const Repr: set<object>

    /** The uniform mirrors the parameter, and the effect keeps the default
        (null) update callback. */
    ghost predicate Valid()
      reads this, Repr
    {
      Repr == {this, effect, uPRNU, uResolution} &&
      uPRNU.value == prnuStrength &&
      effect.frameUniform == null && effect.name == "PRNU"
    }

    /** The range every setter establishes. */
    ghost predicate InRange()
      reads this
    {
      prnuStrength >= 0.0
    }

    /** The constructor stores its argument as given: the range holds only
        when the argument is in range. The resolution starts at 1280x720. */
    constructor (fragmentSource: StdString, prnuStrength: real := DefaultPRNUStrength)
      ensures Valid() && fresh(Repr)
      ensures this.prnuStrength == prnuStrength
      ensures effect.enabled && effect.fragmentSource == fragmentSource
      ensures uResolution.x == 1280.0 && uResolution.y == 720.0
      ensures InRange() <==> prnuStrength >= 0.0
    {
      effect := new NoiseEffect("PRNU", fragmentSource, null);
      this.prnuStrength := prnuStrength;
      uPRNU := new FloatUniform(prnuStrength);
      uResolution := new Vec2Uniform(1280.0, 720.0);
      Repr := {this, effect, uPRNU, uResolution};
    }

    function PRNUStrength(): real
      reads this
    {
      prnuStrength
    }

    /** Stores max(0, v): never negative, and exactly v when v >= 0. */
    method SetPRNUStrength(v: real)
      requires Valid()
      modifies this`prnuStrength, uPRNU`value
      ensures Valid() && InRange()
      ensures PRNUStrength() == MaxReal(0.0, v)
      ensures v >= 0.0 ==> PRNUStrength() == v
    {
      prnuStrength := MaxReal(0.0, v);
      uPRNU.value := prnuStrength;
    }

    method SetResolution(w: real, h: real)
      requires Valid()
      modifies uResolution
      ensures Valid()
      ensures uResolution.x == w && uResolution.y == h
    {
      uResolution.x := w;
      uResolution.y := h;
    }
  }
}
