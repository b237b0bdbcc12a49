/** The sensor noise simulator (src/SensorNoiseSimulator.h): the four effects
    chained in physical order, and the keyboard handler that adjusts their
    parameters and switches them on and off. The handler is specified by a
    transition function on the seven parameters and four enabled flags. */
module SensorNoise {
  import opened NoiseEffects
  import opened PRNU
  import opened DarkNoise
  import opened PhotonNoise
  import opened ReadNoise
  import opened PostProcess

  // ---------------------------------------------------------------------
  // Events and the transition function

  /** Only key presses are handled; every other GUI event is "other". */
  datatype EventType = KeyDown | OtherEvent

  datatype GuiEvent = GuiEvent(eventType: EventType, key: int)

  /** OpenSceneGraph's key codes for the keypad '+' and '-'. */
  const KeyKPAdd: int := 0xFFAB
  const KeyKPSubtract: int := 0xFFAD

  /** The keys the handler acts on. */
  const HandledKeys: set<int> :=
    {'+' as int, KeyKPAdd, '-' as int, KeyKPSubtract, 'd' as int, 'D' as int, 'n' as int, 'N' as int,
     'p' as int, 'P' as int, 's' as int, 'S' as int, 'r' as int, 'R' as int,
     '1' as int, '2' as int, '3' as int, '4' as int}

  /** What the handler reads and changes: the seven parameters and the four
      enabled flags. */
  datatype SensorState = SensorState(
    photonScale: real, darkCurrent: real, dsnuStrength: real,
    hotPixelProbability: real, hotPixelStrength: real, readNoise: real, prnuStrength: real,
    prnuOn: bool, darkOn: bool, photonOn: bool, readOn: bool)

  datatype KeyResult = KeyResult(handled: bool, state: SensorState)

  /** The ranges the effects' setters establish. */
  predicate InRange(st: SensorState) {
    st.photonScale >= 1.0 && st.darkCurrent >= 0.0 && st.dsnuStrength >= 0.0 &&
    0.0 <= st.hotPixelProbability <= 1.0 && st.hotPixelStrength >= 0.0 &&
    st.readNoise >= 0.0 && st.prnuStrength >= 0.0
  }

  /** The effects' default parameters, with the given flags. */
  function Defaults(prnuOn: bool, darkOn: bool, photonOn: bool, readOn: bool): SensorState {
    SensorState(DefaultPhotonScale, DefaultDarkCurrent, DefaultDSNUStrength,
                DefaultHotPixelProbability, DefaultHotPixelStrength, DefaultReadNoise, DefaultPRNUStrength,
                prnuOn, darkOn, photonOn, readOn)
  }

  /** The state a freshly built simulator has. */
  const Initial: SensorState := Defaults(true, true, true, true)

  /** 'r'/'R': every parameter set to its default through its setter. */
  function Reset(st: SensorState): SensorState {
    st.(photonScale := MaxReal(1.0, DefaultPhotonScale),
        darkCurrent := MaxReal(0.0, DefaultDarkCurrent),
        dsnuStrength := MaxReal(0.0, DefaultDSNUStrength),
        hotPixelProbability := ClampReal(DefaultHotPixelProbability, 0.0, 1.0),
        hotPixelStrength := MaxReal(0.0, DefaultHotPixelStrength),
        readNoise := MaxReal(0.0, DefaultReadNoise),
        prnuStrength := MaxReal(0.0, DefaultPRNUStrength))
  }

  /** `SensorNoiseKeyHandler::handle`: the value each key computes, passed
      through the setter it calls (which clamps once more), and whether the
      event was consumed. */
  function HandleKey(st: SensorState, ev: GuiEvent): KeyResult {
    if ev.eventType != KeyDown then KeyResult(false, st)
    else
      var k := ev.key;
      if k == '+' as int || k == KeyKPAdd then
        KeyResult(true, st.(photonScale := MaxReal(1.0, st.photonScale * 1.5)))
      else if k == '-' as int || k == KeyKPSubtract then
        KeyResult(true, st.(photonScale := MaxReal(1.0, st.photonScale / 1.5)))
      else if k == 'd' as int then
        KeyResult(true, st.(darkCurrent := MaxReal(0.0, MaxReal(0.001, st.darkCurrent * 2.0))))
      else if k == 'D' as int then
        KeyResult(true, st.(darkCurrent := MaxReal(0.0, st.darkCurrent * 0.5)))
      else if k == 'n' as int then
        KeyResult(true, st.(readNoise := MaxReal(0.0, MaxReal(0.001, st.readNoise * 1.5))))
      else if k == 'N' as int then
        KeyResult(true, st.(readNoise := MaxReal(0.0, st.readNoise / 1.5)))
      else if k == 'p' as int then
        KeyResult(true, st.(prnuStrength := MaxReal(0.0, MaxReal(0.001, st.prnuStrength * 1.5))))
      else if k == 'P' as int then
        KeyResult(true, st.(prnuStrength := MaxReal(0.0, st.prnuStrength / 1.5)))
      else if k == 's' as int then
        KeyResult(true, st.(dsnuStrength := MaxReal(0.0, MaxReal(0.001, st.dsnuStrength * 1.5))))
      else if k == 'S' as int then
        KeyResult(true, st.(dsnuStrength := MaxReal(0.0, st.dsnuStrength / 1.5)))
      else if k == 'r' as int || k == 'R' as int then
        KeyResult(true, Reset(st))
      else if k == '1' as int then
        KeyResult(true, st.(prnuOn := !st.prnuOn))
      else if k == '2' as int then
        KeyResult(true, st.(darkOn := !st.darkOn))
      else if k == '3' as int then
        KeyResult(true, st.(photonOn := !st.photonOn))
      else if k == '4' as int then
        KeyResult(true, st.(readOn := !st.readOn))
      else
        KeyResult(false, st)
  }

  function Press(key: int): GuiEvent {
    GuiEvent(KeyDown, key)
  }

  /** The state after a sequence of events. */
  function HandleAll(st: SensorState, evs: seq<GuiEvent>): SensorState
    decreases |evs|
  {
    if evs == [] then st else HandleAll(HandleKey(st, evs[0]).state, evs[1..])
  }

  // ---------------------------------------------------------------------
  // Properties of the transition function

  /** An event is consumed exactly when it is a key press of a handled key;
      an event that is not consumed changes nothing. */
  lemma HandledExactly(st: SensorState, ev: GuiEvent)
    ensures HandleKey(st, ev).handled <==> ev.eventType == KeyDown && ev.key in HandledKeys
    ensures !HandleKey(st, ev).handled ==> HandleKey(st, ev).state == st
  {
  }

  /** Keys '1' to '4' flip one flag each, PRNU, dark, photon and read noise
      in that order, and leave everything else alone. */
  lemma TogglesFlipOneFlag(st: SensorState)
    ensures HandleKey(st, Press('1' as int)).state == st.(prnuOn := !st.prnuOn)
    ensures HandleKey(st, Press('2' as int)).state == st.(darkOn := !st.darkOn)
    ensures HandleKey(st, Press('3' as int)).state == st.(photonOn := !st.photonOn)
    ensures HandleKey(st, Press('4' as int)).state == st.(readOn := !st.readOn)
  {
  }

  /** Pressing a toggle key twice restores the state. */
  lemma ToggleTwiceRestores(st: SensorState, key: int)
    requires key in {'1' as int, '2' as int, '3' as int, '4' as int}
    ensures HandleKey(HandleKey(st, Press(key)).state, Press(key)).state == st
  {
  }

  /** 'r' and 'R' restore every parameter's default and keep the flags. */
  lemma ResetRestoresDefaults(st: SensorState, key: int)
    requires key == 'r' as int || key == 'R' as int
    ensures HandleKey(st, Press(key)) ==
              KeyResult(true, Defaults(st.prnuOn, st.darkOn, st.photonOn, st.readOn))
  {
  }

  /** The initial state is in range. */
  lemma InitialInRange()
    ensures InRange(Initial)
  {
  }

  /** No event leads out of range. */
  lemma KeyKeepsRange(st: SensorState, ev: GuiEvent)
    requires InRange(st)
    ensures InRange(HandleKey(st, ev).state)
  {
    var k := ev.key;
    if ev.eventType != KeyDown {
    } else if k == '+' as int || k == KeyKPAdd || k == '-' as int || k == KeyKPSubtract {
      PhotonKeysKeepRange(st, k);
    } else if k == 'd' as int || k == 'D' as int || k == 's' as int || k == 'S' as int {
      DarkKeysKeepRange(st, k);
    } else if k == 'n' as int || k == 'N' as int || k == 'p' as int || k == 'P' as int {
      ReadAndPRNUKeysKeepRange(st, k);
    } else if k == 'r' as int || k == 'R' as int {
      ResetRestoresDefaults(st, k);
    }
  }

  lemma PhotonKeysKeepRange(st: SensorState, k: int)
    requires InRange(st)
    requires k == '+' as int || k == KeyKPAdd || k == '-' as int || k == KeyKPSubtract
    ensures InRange(HandleKey(st, Press(k)).state)
  {
  }

  lemma DarkKeysKeepRange(st: SensorState, k: int)
    requires InRange(st)
    requires k == 'd' as int || k == 'D' as int || k == 's' as int || k == 'S' as int
    ensures InRange(HandleKey(st, Press(k)).state)
  {
  }

  lemma ReadAndPRNUKeysKeepRange(st: SensorState, k: int)
    requires InRange(st)
    requires k == 'n' as int || k == 'N' as int || k == 'p' as int || k == 'P' as int
    ensures InRange(HandleKey(st, Press(k)).state)
  {
  }

  /** No sequence of events leads out of range. */
  lemma {:induction false} EventsKeepRange(st: SensorState, evs: seq<GuiEvent>)
    requires InRange(st)
    ensures InRange(HandleAll(st, evs))
    decreases |evs|
  {
    if evs != [] {
      KeyKeepsRange(st, evs[0]);
      EventsKeepRange(HandleKey(st, evs[0]).state, evs[1..]);
    }
  }

  /** '+' multiplies the photon scale by 1.5 and '-' divides it by 1.5,
      never going below 1; nothing else changes. */
  lemma PhotonScaleKeys(st: SensorState)
    requires InRange(st)
    ensures var up := HandleKey(st, Press('+' as int)).state;
            up == st.(photonScale := st.photonScale * 1.5) && up == HandleKey(st, Press(KeyKPAdd)).state
    ensures var down := HandleKey(st, Press('-' as int)).state;
            down.photonScale >= 1.0 && down == HandleKey(st, Press(KeyKPSubtract)).state &&
            down == st.(photonScale := if st.photonScale >= 1.5 then st.photonScale / 1.5 else 1.0)
  {
  }

  /** In range, '-' undoes '+'. */
  lemma PlusThenMinusRestores(st: SensorState)
    requires InRange(st)
    ensures HandleKey(HandleKey(st, Press('+' as int)).state, Press('-' as int)).state == st
  {
    var s := st.photonScale;
    assert (s * 1.5) / 1.5 == s;
  }

  /** '+' does not undo '-' at the floor: from scale 1, '-' stays at 1 and
      '+' then gives 1.5. */
  lemma MinusThenPlusAtFloor(st: SensorState)
    requires st.photonScale == 1.0
    ensures HandleKey(HandleKey(st, Press('-' as int)).state, Press('+' as int)).state.photonScale == 1.5
  {
  }

  /** 'd', 'n', 'p' and 's' raise their parameter to at least 0.001 and by
      at least the key's factor. */
  lemma RaiseKeys(st: SensorState)
    requires InRange(st)
    ensures var r := HandleKey(st, Press('d' as int)).state;
            r == st.(darkCurrent := r.darkCurrent) && r.darkCurrent >= 0.001 && r.darkCurrent >= st.darkCurrent * 2.0
    ensures var r := HandleKey(st, Press('n' as int)).state;
            r == st.(readNoise := r.readNoise) && r.readNoise >= 0.001 && r.readNoise >= st.readNoise * 1.5
    ensures var r := HandleKey(st, Press('p' as int)).state;
            r == st.(prnuStrength := r.prnuStrength) && r.prnuStrength >= 0.001 && r.prnuStrength >= st.prnuStrength * 1.5
    ensures var r := HandleKey(st, Press('s' as int)).state;
            r == st.(dsnuStrength := r.dsnuStrength) && r.dsnuStrength >= 0.001 && r.dsnuStrength >= st.dsnuStrength * 1.5
  {
  }

  /** In range, 'D' halves the dark current and 'N', 'P' and 'S' divide
      their parameter by 1.5; nothing else changes. */
  lemma ShrinkKeys(st: SensorState)
    requires InRange(st)
    ensures HandleKey(st, Press('D' as int)).state == st.(darkCurrent := st.darkCurrent * 0.5)
    ensures HandleKey(st, Press('N' as int)).state == st.(readNoise := st.readNoise / 1.5)
    ensures HandleKey(st, Press('P' as int)).state == st.(prnuStrength := st.prnuStrength / 1.5)
    ensures HandleKey(st, Press('S' as int)).state == st.(dsnuStrength := st.dsnuStrength / 1.5)
  {
  }

  /** Once the dark current is at least 0.0005, 'D' undoes 'd'; below that
      'd' first lifts it to 0.001 and 'D' then gives 0.0005. */
  lemma RaiseThenShrinkDark(st: SensorState)
    requires InRange(st)
    ensures var back := HandleKey(HandleKey(st, Press('d' as int)).state, Press('D' as int)).state;
            back == st.(darkCurrent := if st.darkCurrent >= 0.0005 then st.darkCurrent else 0.0005)
  {
  }

  // ---------------------------------------------------------------------
  // The simulator and its key handler

  class SensorNoiseSimulator {
    const chain: PostProcessChain
    const prnu: PRNUEffect
    const darkNoise: DarkNoiseEffect
    const photonNoise: PhotonNoiseEffect
    const readNoise: ReadNoiseEffect
    /** Every object of the four effects. */
    ghost const Repr: set<object>

    /** Each effect is valid and the effects share no object. */
    ghost predicate Valid()
      reads this, prnu, darkNoise, photonNoise, readNoise, Repr
    {
      Repr == prnu.Repr + darkNoise.Repr + photonNoise.Repr + readNoise.Repr &&
      prnu.Valid() && darkNoise.Valid() && photonNoise.Valid() && readNoise.Valid() &&
      prnu.Repr !! darkNoise.Repr && prnu.Repr !! photonNoise.Repr && prnu.Repr !! readNoise.Repr &&
      darkNoise.Repr !! photonNoise.Repr && darkNoise.Repr !! readNoise.Repr &&
      photonNoise.Repr !! readNoise.Repr
    }

    /** The parameters and flags the key handler works on. */
    function State(): SensorState
      reads prnu, darkNoise, photonNoise, readNoise,
            prnu.effect, darkNoise.effect, photonNoise.effect, readNoise.effect
    {
      SensorState(photonNoise.PhotonScale(), darkNoise.DarkCurrent(), darkNoise.DSNUStrength(),
                  darkNoise.HotPixelProbability(), darkNoise.HotPixelStrength(), readNoise.ReadNoise(),
                  prnu.PRNUStrength(),
                  prnu.effect.IsEnabled(), darkNoise.effect.IsEnabled(),
                  photonNoise.effect.IsEnabled(), readNoise.effect.IsEnabled())
    }

    /** Builds the four effects with their defaults, sets their resolution
        to the viewport's, and registers them with the chain in the order
        PRNU, dark noise, photon noise, read noise. The shader files'
        contents are the constructor's inputs. */
    constructor (width: nat, height: nat, vertexSource: string, utilsSource: string,
                 prnuSource: StdString, darkSource: StdString, photonSource: StdString, readSource: StdString)
      ensures Valid() && fresh(Repr) && fresh(chain)
      ensures chain.effects == [prnu.effect, darkNoise.effect, photonNoise.effect, readNoise.effect]
      ensures chain.width == width && chain.height == height && chain.utilsSource == utilsSource
      ensures State() == Initial
      ensures prnu.effect.fragmentSource == prnuSource && darkNoise.effect.fragmentSource == darkSource
      ensures photonNoise.effect.fragmentSource == photonSource && readNoise.effect.fragmentSource == readSource
      ensures prnu.uResolution.x == width as real && prnu.uResolution.y == height as real
      ensures darkNoise.uResolution.x == width as real && darkNoise.uResolution.y == height as real
      ensures photonNoise.uResolution.x == width as real && photonNoise.uResolution.y == height as real
      ensures readNoise.uResolution.x == width as real && readNoise.uResolution.y == height as real
    {
      var w := width as real;
      var h := height as real;
      var p := NewPRNU(prnuSource, w, h);
      var d := NewDarkNoise(darkSource, w, h);
      var ph := NewPhotonNoise(photonSource, w, h);
      var r := NewReadNoise(readSource, w, h);
      var c := NewChain(width, height, vertexSource, utilsSource, p.effect, d.effect, ph.effect, r.effect);
      chain := c;
      prnu := p;
      darkNoise := d;
      photonNoise := ph;
      readNoise := r;
      Repr := p.Repr + d.Repr + ph.Repr + r.Repr;
    }

    /** The chain with the effects added in the given order. */
    static method NewChain(width: nat, height: nat, vertexSource: string, utilsSource: string,
                           e1: NoiseEffect, e2: NoiseEffect, e3: NoiseEffect, e4: NoiseEffect)
      returns (c: PostProcessChain)
      ensures fresh(c)
      ensures c.effects == [e1, e2, e3, e4]
      ensures c.width == width && c.height == height && c.utilsSource == utilsSource
    {
      c := new PostProcessChain(width, height, vertexSource, utilsSource);
      c.AddEffect(e1);
      c.AddEffect(e2);
      c.AddEffect(e3);
      c.AddEffect(e4);
    }

    /** An effect at its defaults, sized to the viewport. */
    static method NewPRNU(source: StdString, w: real, h: real) returns (p: PRNUEffect)
      ensures fresh(p.Repr) && p.Valid()
      ensures p.PRNUStrength() == DefaultPRNUStrength
      ensures p.effect.enabled && p.effect.fragmentSource == source
      ensures p.uResolution.x == w && p.uResolution.y == h
    {
      p := new PRNUEffect(source);
      p.SetResolution(w, h);
    }

    static method NewDarkNoise(source: StdString, w: real, h: real) returns (d: DarkNoiseEffect)
      ensures fresh(d.Repr) && d.Valid()
      ensures d.DarkCurrent() == DefaultDarkCurrent && d.DSNUStrength() == DefaultDSNUStrength
      ensures d.HotPixelProbability() == DefaultHotPixelProbability
      ensures d.HotPixelStrength() == DefaultHotPixelStrength
      ensures d.effect.enabled && d.effect.fragmentSource == source
      ensures d.uResolution.x == w && d.uResolution.y == h
    {
      d := new DarkNoiseEffect(source);
      d.SetResolution(w, h);
    }

    static method NewPhotonNoise(source: StdString, w: real, h: real) returns (ph: PhotonNoiseEffect)
      ensures fresh(ph.Repr) && ph.Valid()
      ensures ph.PhotonScale() == DefaultPhotonScale
      ensures ph.effect.enabled && ph.effect.fragmentSource == source
      ensures ph.uResolution.x == w && ph.uResolution.y == h
    {
      ph := new PhotonNoiseEffect(source);
      ph.SetResolution(w, h);
    }

    static method NewReadNoise(source: StdString, w: real, h: real) returns (r: ReadNoiseEffect)
      ensures fresh(r.Repr) && r.Valid()
      ensures r.ReadNoise() == DefaultReadNoise
      ensures r.effect.enabled && r.effect.fragmentSource == source
      ensures r.uResolution.x == w && r.uResolution.y == h
    {
      r := new ReadNoiseEffect(source);
      r.SetResolution(w, h);
    }

    // Each parameter change goes through the owning effect's setter and
    // leaves the other effects alone.

    method SetPhotonScale(s: real)
      requires Valid()
      modifies photonNoise`photonScale, photonNoise.uPhotonScale`value
      ensures Valid()
      ensures State() == old(State()).(photonScale := MaxReal(1.0, s))
    {
      photonNoise.SetPhotonScale(s);
    }

    method SetDarkCurrent(v: real)
      requires Valid()
      modifies darkNoise`darkCurrent, darkNoise.uDarkCurrent`value
      ensures Valid()
      ensures State() == old(State()).(darkCurrent := MaxReal(0.0, v))
    {
      darkNoise.SetDarkCurrent(v);
    }

    method SetDSNUStrength(v: real)
      requires Valid()
      modifies darkNoise`dsnuStrength, darkNoise.uDSNU`value
      ensures Valid()
      ensures State() == old(State()).(dsnuStrength := MaxReal(0.0, v))
    {
      darkNoise.SetDSNUStrength(v);
    }

    method SetHotPixelProbability(v: real)
      requires Valid()
      modifies darkNoise`hotPixelProbability, darkNoise.uHotPixelProb`value
      ensures Valid()
      ensures State() == old(State()).(hotPixelProbability := ClampReal(v, 0.0, 1.0))
    {
      darkNoise.SetHotPixelProbability(v);
    }

    method SetHotPixelStrength(v: real)
      requires Valid()
      modifies darkNoise`hotPixelStrength, darkNoise.uHotPixelStr`value
      ensures Valid()
      ensures State() == old(State()).(hotPixelStrength := MaxReal(0.0, v))
    {
      darkNoise.SetHotPixelStrength(v);
    }

    method SetReadNoise(v: real)
      requires Valid()
      modifies readNoise`readNoise, readNoise.uReadNoise`value
      ensures Valid()
      ensures State() == old(State()).(readNoise := MaxReal(0.0, v))
    {
      readNoise.SetReadNoise(v);
    }

    method SetPRNUStrength(v: real)
      requires Valid()
      modifies prnu`prnuStrength, prnu.uPRNU`value
      ensures Valid()
      ensures State() == old(State()).(prnuStrength := MaxReal(0.0, v))
    {
      prnu.SetPRNUStrength(v);
    }
  }

  class SensorNoiseKeyHandler {
    const sim: SensorNoiseSimulator

    constructor (sim: SensorNoiseSimulator)
      ensures this.sim == sim
    {
      this.sim := sim;
    }

    /** `handle`: acts on the simulator's effects through their setters
        exactly as `HandleKey` says, and reports whether the event was
        consumed. */
    method Handle(ev: GuiEvent) returns (handled: bool)
      requires sim.Valid()
      modifies sim.photonNoise`photonScale, sim.photonNoise.uPhotonScale`value,
               sim.darkNoise`darkCurrent, sim.darkNoise.uDarkCurrent`value,
               sim.darkNoise`dsnuStrength, sim.darkNoise.uDSNU`value,
               sim.darkNoise`hotPixelProbability, sim.darkNoise.uHotPixelProb`value,
               sim.darkNoise`hotPixelStrength, sim.darkNoise.uHotPixelStr`value,
               sim.readNoise`readNoise, sim.readNoise.uReadNoise`value,
               sim.prnu`prnuStrength, sim.prnu.uPRNU`value,
               sim.prnu.effect`enabled, sim.darkNoise.effect`enabled,
               sim.photonNoise.effect`enabled, sim.readNoise.effect`enabled
      ensures sim.Valid()
      ensures KeyResult(handled, sim.State()) == HandleKey(old(sim.State()), ev)
    {
      if ev.eventType != KeyDown {
        return false;
      }
      var k := ev.key;
      if k == '+' as int || k == KeyKPAdd || k == '-' as int || k == KeyKPSubtract {
        PhotonKey(k);
        handled := true;
      } else if k == 'd' as int || k == 'D' as int || k == 's' as int || k == 'S' as int {
        DarkKey(k);
        handled := true;
      } else if k == 'n' as int || k == 'N' as int || k == 'p' as int || k == 'P' as int {
        ReadAndPRNUKey(k);
        handled := true;
      } else if k == 'r' as int || k == 'R' as int {
        ResetAll();
        handled := true;
      } else {
        handled := ToggleKey(k);
      }
    }

    /** '+' and '-' (main keyboard or keypad): the photon scale times or
        divided by 1.5. */
    method PhotonKey(k: int)
      requires sim.Valid()
      requires k == '+' as int || k == KeyKPAdd || k == '-' as int || k == KeyKPSubtract
      modifies sim.photonNoise`photonScale, sim.photonNoise.uPhotonScale`value
      ensures sim.Valid()
      ensures sim.State() == HandleKey(old(sim.State()), Press(k)).state
    {
      if k == '+' as int || k == KeyKPAdd {
        sim.SetPhotonScale(sim.photonNoise.PhotonScale() * 1.5);
      } else {
        sim.SetPhotonScale(sim.photonNoise.PhotonScale() / 1.5);
      }
    }

    /** 'd'/'D': the dark current doubled (at least 0.001) or halved;
        's'/'S': the DSNU strength times (at least 0.001) or divided by 1.5. */
    method DarkKey(k: int)
      requires sim.Valid()
      requires k == 'd' as int || k == 'D' as int || k == 's' as int || k == 'S' as int
      modifies sim.darkNoise`darkCurrent, sim.darkNoise.uDarkCurrent`value,
               sim.darkNoise`dsnuStrength, sim.darkNoise.uDSNU`value
      ensures sim.Valid()
      ensures sim.State() == HandleKey(old(sim.State()), Press(k)).state
    {
      if k == 'd' as int {
        sim.SetDarkCurrent(MaxReal(0.001, sim.darkNoise.DarkCurrent() * 2.0));
      } else if k == 'D' as int {
        sim.SetDarkCurrent(sim.darkNoise.DarkCurrent() * 0.5);
      } else if k == 's' as int {
        sim.SetDSNUStrength(MaxReal(0.001, sim.darkNoise.DSNUStrength() * 1.5));
      } else {
        sim.SetDSNUStrength(sim.darkNoise.DSNUStrength() / 1.5);
      }
    }

    /** 'n'/'N': the read noise, 'p'/'P': the PRNU strength, times (at least
        0.001) or divided by 1.5. */
    method ReadAndPRNUKey(k: int)
      requires sim.Valid()
      requires k == 'n' as int || k == 'N' as int || k == 'p' as int || k == 'P' as int
      modifies sim.readNoise`readNoise, sim.readNoise.uReadNoise`value,
               sim.prnu`prnuStrength, sim.prnu.uPRNU`value
      ensures sim.Valid()
      ensures sim.State() == HandleKey(old(sim.State()), Press(k)).state
    {
      if k == 'n' as int {
        sim.SetReadNoise(MaxReal(0.001, sim.readNoise.ReadNoise() * 1.5));
      } else if k == 'N' as int {
        sim.SetReadNoise(sim.readNoise.ReadNoise() / 1.5);
      } else if k == 'p' as int {
        sim.SetPRNUStrength(MaxReal(0.001, sim.prnu.PRNUStrength() * 1.5));
      } else {
        sim.SetPRNUStrength(sim.prnu.PRNUStrength() / 1.5);
      }
    }

    /** '1' to '4' flip one effect's enabled flag; any other key is not
        handled. */
    method ToggleKey(k: int) returns (handled: bool)
      requires sim.Valid()
      requires k !in {'+' as int, KeyKPAdd, '-' as int, KeyKPSubtract, 'd' as int, 'D' as int, 's' as int, 'S' as int,
                      'n' as int, 'N' as int, 'p' as int, 'P' as int, 'r' as int, 'R' as int}
      modifies sim.prnu.effect`enabled, sim.darkNoise.effect`enabled,
               sim.photonNoise.effect`enabled, sim.readNoise.effect`enabled
      ensures sim.Valid()
      ensures KeyResult(handled, sim.State()) == HandleKey(old(sim.State()), Press(k))
    {
      if k == '1' as int {
        sim.prnu.effect.SetEnabled(!sim.prnu.effect.IsEnabled());
        handled := true;
      } else if k == '2' as int {
        sim.darkNoise.effect.SetEnabled(!sim.darkNoise.effect.IsEnabled());
        handled := true;
      } else if k == '3' as int {
        sim.photonNoise.effect.SetEnabled(!sim.photonNoise.effect.IsEnabled());
        handled := true;
      } else if k == '4' as int {
        sim.readNoise.effect.SetEnabled(!sim.readNoise.effect.IsEnabled());
        handled := true;
      } else {
        handled := false;
      }
    }

    /** The 'r'/'R' branch: the seven setters called with the defaults. */
    method ResetAll()
      requires sim.Valid()
      modifies sim.photonNoise`photonScale, sim.photonNoise.uPhotonScale`value,
               sim.darkNoise`darkCurrent, sim.darkNoise.uDarkCurrent`value,
               sim.darkNoise`dsnuStrength, sim.darkNoise.uDSNU`value,
               sim.darkNoise`hotPixelProbability, sim.darkNoise.uHotPixelProb`value,
               sim.darkNoise`hotPixelStrength, sim.darkNoise.uHotPixelStr`value,
               sim.readNoise`readNoise, sim.readNoise.uReadNoise`value,
               sim.prnu`prnuStrength, sim.prnu.uPRNU`value
      ensures sim.Valid()
      ensures sim.State() == Reset(old(sim.State()))
    {
      sim.SetPhotonScale(DefaultPhotonScale);
      sim.SetDarkCurrent(DefaultDarkCurrent);
      sim.SetDSNUStrength(DefaultDSNUStrength);
      sim.SetHotPixelProbability(DefaultHotPixelProbability);
      sim.SetHotPixelStrength(DefaultHotPixelStrength);
      sim.SetReadNoise(DefaultReadNoise);
      sim.SetPRNUStrength(DefaultPRNUStrength);
    }
  }
}
