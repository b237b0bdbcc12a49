/** What every noise effect of the sensor pipeline shares (src/INoiseEffect.h):
    the enabled flag, the optional per-frame update callback, and the shader
    uniforms through which an effect's parameters reach its fragment shader.

    Dafny has no inheritance here, so the `INoiseEffect` part of an effect is
    an object of its own, `NoiseEffect`, that every concrete effect owns and
    that the post-processing chain holds. Whether an effect overrides
    `createUpdateCallback` is recorded as the frame-number uniform its
    callback drives (`null` for the inherited default). */
module NoiseEffects {

  /** 2^64: `std::size_t` arithmetic wraps modulo this. */
  const SizeModulus: int := 0x1_0000_0000_0000_0000
  /** `std::string::npos`, the largest `size_t`. */
  const NPos: int := SizeModulus - 1

  /** A `std::string`: its length is a `size_t` below `npos` (`max_size()`
      is smaller than `npos`). */
  type StdString = s: string | |s| < NPos

  /** `std::max(a, b)`: `b` when `a < b`, otherwise `a`. */
  function MaxReal(a: real, b: real): (r: real)
    ensures r >= a && r >= b && (r == a || r == b)
  {
    if a < b then b else a
  }

  /** `std::clamp(v, lo, hi)`. */
  function ClampReal(v: real, lo: real, hi: real): (r: real)
    requires lo <= hi
    ensures lo <= r <= hi
    ensures lo <= v <= hi ==> r == v
    ensures v < lo ==> r == lo
    ensures hi < v ==> r == hi
  {
    if v < lo then lo else if hi < v then hi else v
  }

  /** A shader uniform holding an integer (the frame number). */
  class IntUniform {
    var value: int

    constructor (value: int)
      ensures this.value == value
    {
      this.value := value;
    }
  }

  /** A shader uniform holding one float parameter. */
  class FloatUniform {
    var value: real

    constructor (value: real)
      ensures this.value == value
    {
      this.value := value;
    }
  }

  /** A shader uniform holding a 2-vector (the viewport resolution). */
  class Vec2Uniform {
    var x: real
    var y: real

    constructor (x: real, y: real)
      ensures this.x == x && this.y == y
    {
      this.x := x;
      this.y := y;
    }
  }

  /** The frame counter callback of the dark, photon and read noise effects
      (their three callback classes are identical): each call publishes the
      counter to the uniform and then increments it. */
  class FrameCallback {
    const u: IntUniform
    var f: int
    /** The values published so far, oldest first. */
    ghost var published: seq<int>

    /** The callback has published 0, 1, ..., f - 1, in that order. */
    ghost predicate Valid()
      reads this
    {
      f == |published| && forall i :: 0 <= i < |published| ==> published[i] == i
    }

    constructor (u: IntUniform)
      ensures this.u == u && f == 0 && published == [] && Valid()
    {
      this.u := u;
      f := 0;
      published := [];
    }

    /** `operator()`: `m_u->set(m_f++)`. */
    method Invoke()
      requires Valid()
      modifies this`f, this`published, u`value
      ensures Valid()
      ensures u.value == old(f) && f == old(f) + 1
      ensures published == old(published) + [old(f)]
    {
      u.value := f;
      published := published + [f];
      f := f + 1;
    }
  }

  /** The `INoiseEffect` part of an effect. */
  class NoiseEffect {
    var enabled: bool
    /** `getName()`. */
    const name: string
    /** `getFragmentSource()`: the text of the effect's shader file, empty
        when the file cannot be opened. */
    const fragmentSource: StdString
    /** The uniform the effect's update callback drives, or `null` for an
        effect that keeps the default `createUpdateCallback`. */
    const frameUniform: IntUniform?

    /** A new effect starts enabled (`m_enabled = true`). */
    constructor (name: string, fragmentSource: StdString, frameUniform: IntUniform?)
      ensures enabled
      ensures this.name == name && this.fragmentSource == fragmentSource
      ensures this.frameUniform == frameUniform
    {
      enabled := true;
      this.name := name;
      this.fragmentSource := fragmentSource;
      this.frameUniform := frameUniform;
    }

    predicate IsEnabled()
      reads this
    {
      enabled
    }

    /** Sets the flag and nothing else. */
    method SetEnabled(on: bool)
      modifies this`enabled
      ensures IsEnabled() == on
    {
      enabled := on;
    }

    /** A fresh frame counter bound to the effect's frame uniform, or `null`
        for an effect without a temporal component. */
    method CreateUpdateCallback() returns (cb: FrameCallback?)
      ensures frameUniform == null ==> cb == null
      ensures frameUniform != null ==>
                cb != null && fresh(cb) && cb.u == frameUniform && cb.f == 0 && cb.Valid()
    {
      if frameUniform == null {
        cb := null;
      } else {
        cb := new FrameCallback(frameUniform);
      }
    }
  }
}
