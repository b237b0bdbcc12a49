/** The multi-pass post-processing chain (src/PostProcessChain.h,
    src/PostProcessChain.cpp): an ordered list of effects, turned by `build`
    into one render pass per enabled effect, each pass sampling the previous
    one's output, the first one sampling the rendered scene and the last one
    drawing to the screen. The scene-graph objects are reduced to what the
    chaining depends on: textures as objects, cameras as render orders. */
module PostProcess {
  import opened Strings
  import opened NoiseEffects

  /** A colour buffer a camera renders into and a pass samples. */
  class Texture {
    const width: int
    const height: int

    constructor (width: int, height: int)
      ensures this.width == width && this.height == height
    {
      this.width := width;
      this.height := height;
    }
  }

  /** A camera's render order: OpenSceneGraph's PRE_RENDER with an order
      index, its default NESTED_RENDER, and POST_RENDER. */
  datatype RenderOrder = PreRender(index: int) | NestedRender | PostRender

  /** One pass: its effect, the texture bound as its input, the texture its
      camera renders into (`null` when it draws to the screen), its camera's
      render order and the fragment shader text it compiles. */
  datatype Pass = Pass(effect: NoiseEffect, input: Texture, output: Texture?,
                       order: RenderOrder, fragmentSource: string)

  /** What `build` returns: the root group holds the scene camera (rendering
      into `sceneTexture`), one camera per pass, and the update callbacks. */
  datatype SceneGraph = SceneGraph(sceneTexture: Texture, sceneOrder: RenderOrder,
                                   passes: seq<Pass>, updateCallbacks: seq<FrameCallback>)

  // ---------------------------------------------------------------------
  // Filtering

  /** The effects `build` keeps: the enabled ones, in registration order. */
  function ActiveEffects(effects: seq<NoiseEffect>): (r: seq<NoiseEffect>)
    reads set i | 0 <= i < |effects| :: effects[i]
    ensures |r| <= |effects|
    ensures forall k :: 0 <= k < |r| ==> r[k] in effects && r[k].enabled
  {
    if effects == [] then []
    else
      var init := ActiveEffects(effects[..|effects| - 1]);
      var last := effects[|effects| - 1];
      if last.enabled then init + [last] else init
  }

  /** The positions of the enabled effects, in increasing order. */
  ghost function EnabledIndices(effects: seq<NoiseEffect>): seq<int>
    reads set i | 0 <= i < |effects| :: effects[i]
  {
    if effects == [] then []
    else
      EnabledIndices(effects[..|effects| - 1]) +
      (if effects[|effects| - 1].enabled then [|effects| - 1] else [])
  }

  /** The active effects are the effects at the enabled positions, taken
      in order, and those positions increase: registration order is kept. */
  lemma {:induction false} ActiveAtEnabledIndices(effects: seq<NoiseEffect>)
    ensures var idx := EnabledIndices(effects);
            var r := ActiveEffects(effects);
            |idx| == |r| &&
            (forall k :: 0 <= k < |idx| ==> 0 <= idx[k] < |effects| && r[k] == effects[idx[k]]) &&
            (forall k, l :: 0 <= k < l < |idx| ==> idx[k] < idx[l])
    decreases |effects|
  {
    if effects != [] {
      var init := effects[..|effects| - 1];
      ActiveAtEnabledIndices(init);
    }
  }

  /** A position is among the enabled positions exactly when its effect is
      enabled: every enabled effect is kept and no disabled one is. */
  lemma {:induction false} EnabledIndicesExact(effects: seq<NoiseEffect>)
    ensures forall i :: 0 <= i < |effects| ==> (effects[i].enabled <==> i in EnabledIndices(effects))
    ensures forall i :: i in EnabledIndices(effects) ==> 0 <= i < |effects|
    decreases |effects|
  {
    if effects != [] {
      var init := effects[..|effects| - 1];
      EnabledIndicesExact(init);
      forall i | 0 <= i < |init|
        ensures effects[i].enabled <==> i in EnabledIndices(effects)
      {
        assert effects[i] == init[i];
      }
    }
  }

  /** No pass is built exactly when no effect is enabled. */
  lemma {:induction false} ActiveEmptyIffNoneEnabled(effects: seq<NoiseEffect>)
    ensures ActiveEffects(effects) == [] <==> forall i :: 0 <= i < |effects| ==> !effects[i].enabled
    decreases |effects|
  {
    if effects != [] {
      var init := effects[..|effects| - 1];
      ActiveEmptyIffNoneEnabled(init);
      assert forall i :: 0 <= i < |init| ==> init[i] == effects[i];
    }
  }

  /** With every effect enabled, all of them are kept. */
  lemma {:induction false} ActiveAllEnabled(effects: seq<NoiseEffect>)
    requires forall i :: 0 <= i < |effects| ==> effects[i].enabled
    ensures ActiveEffects(effects) == effects
    decreases |effects|
  {
    if effects != [] {
      var init := effects[..|effects| - 1];
      ActiveAllEnabled(init);
      assert init + [effects[|effects| - 1]] == effects;
    }
  }

  // ---------------------------------------------------------------------
  // The fragment shader splice

  /** `std::size_t` wrap-around of a sum or difference of two sizes. */
  function SizeT(n: int): (r: int)
    requires -SizeModulus <= n < 2 * SizeModulus
    ensures 0 <= r < SizeModulus
    ensures r % SizeModulus == n % SizeModulus
  {
    if n < 0 then n + SizeModulus
    else if n >= SizeModulus then n - SizeModulus
    else n
  }

  /** The version-line cut of a terminated line: `substr(v, e - v + 1)`. */
  lemma SubstrLine(s: string, v: int, e: int)
    requires 0 <= v <= e < |s| < NPos
    ensures Substr(s, v, SizeT(e - v + 1)) == s[v..e + 1]
  {
  }

  /** The body cut of a terminated line: `substr(e + 1)`. */
  lemma SubstrRest(s: string, e: int)
    requires 0 <= e < |s| < NPos
    ensures Substr(s, SizeT(e + 1), NPos) == s[e + 1..]
  {
  }

  /** The cuts when `find` returned `npos`: `substr(npos + 1)` is the whole
      text, and `substr(v, npos - v + 1)` is empty for v = 0 and the rest
      of the text from v otherwise. */
  lemma SubstrUnterminated(s: string, v: int)
    requires 0 <= v < |s| < NPos
    ensures Substr(s, SizeT(NPos + 1), NPos) == s
    ensures Substr(s, v, SizeT(NPos - v + 1)) == if v == 0 then "" else s[v..]
  {
  }

  /** A one-character match is that character. */
  lemma NewlineAt(s: string, q: nat)
    ensures MatchAt(s, "\n", q) <==> q < |s| && s[q] == '\n'
  {
    if q < |s| {
      assert s[q..q + 1] == [s[q]];
    }
  }

  /** A `#version` directive holds no newline, so the first newline at or
      after it lies past its eight characters. */
  lemma NewlineAfterDirective(s: string, v: nat)
    requires MatchAt(s, "#version", v)
    ensures Find(s, "\n", v) == -1 || Find(s, "\n", v) >= v + 8
  {
    forall q | v <= q < v + 8
      ensures !MatchAt(s, "\n", q)
    {
      assert s[q] == s[v..v + 8][q - v];
      NewlineAt(s, q);
    }
  }

  /** `std::string::find`, with `npos` for "not found". */
  function FindPos(s: string, pat: string, from: nat): (p: int)
    ensures p == NPos || (from <= p && MatchAt(s, pat, p))
    ensures |s| < NPos ==> (p == NPos <==> Find(s, pat, from) == -1)
    ensures p != NPos ==> forall q :: from <= q < p ==> !MatchAt(s, pat, q)
  {
    var q := Find(s, pat, from);
    if q == -1 then NPos else q
  }

  /** `std::string::substr(pos, count)`: at most `count` characters from
      `pos`, stopping at the end of the string. */
  function Substr(s: string, pos: int, count: int): (r: string)
    requires 0 <= pos <= |s| && 0 <= count
    ensures |r| == Min(count, |s| - pos)
    ensures r <= s[pos..]
  {
    s[pos..pos + Min(count, |s| - pos)]
  }

  /** The directive prepended when an effect's shader has none. */
  const DefaultVersionLine: string := "#version 330 core\n"

  /** The fragment source `createPass` assembles, as written: the
      `#version` line of the effect's text, the shared noise utilities, and
      the rest of the effect's text. When no newline follows `#version`,
      `lineEnd` is `npos`, so the version line runs to the end of the text,
      except that it is empty when `#version` is at position 0 (the count
      `npos - 0 + 1` wraps to 0), and the body is the whole text
      (`npos + 1` wraps to 0). */
  function FragmentSourceAsWritten(fragBody: string, utils: string): (r: string)
    requires |fragBody| < NPos
    ensures Find(fragBody, "#version", 0) == -1 ==> r == DefaultVersionLine + utils + "\n" + fragBody
  {
    var versionPos := FindPos(fragBody, "#version", 0);
    if versionPos != NPos then
      SpliceAsWritten(fragBody, utils, versionPos, FindPos(fragBody, "\n", versionPos))
    else
      DefaultVersionLine + utils + "\n" + fragBody
  }

  /** The splice once `versionPos` and `lineEnd` (either may be `npos`
      only as `find` returns it) are known. */
  function SpliceAsWritten(fragBody: string, utils: string, versionPos: int, lineEnd: int): string
    requires |fragBody| < NPos
    requires 0 <= versionPos < |fragBody|
    requires lineEnd == NPos || versionPos <= lineEnd < |fragBody|
  {
    var versionLine := Substr(fragBody, versionPos, SizeT(lineEnd - versionPos + 1));
    var body := Substr(fragBody, SizeT(lineEnd + 1), NPos);
    versionLine + "\n" + utils + "\n" + body
  }

  /** Where the effect's version line ends: after its newline, or at the
      end of the text when no newline follows. */
  function VersionLineEnd(fragBody: string, versionPos: nat): (cut: int)
    requires MatchAt(fragBody, "#version", versionPos)
    ensures versionPos + 8 <= cut <= |fragBody|
    ensures forall q :: versionPos <= q < cut - 1 ==> fragBody[q] != '\n'
  {
    var lineEnd := Find(fragBody, "\n", versionPos);
    NewlineAfterDirective(fragBody, versionPos);
    NewlinesBefore(fragBody, versionPos, lineEnd);
    if lineEnd == -1 then |fragBody| else lineEnd + 1
  }

  /** Before the first newline found from `v` (or before the end, when
      there is none) there is no newline. */
  lemma NewlinesBefore(s: string, v: nat, e: int)
    requires e == Find(s, "\n", v)
    ensures forall q :: v <= q < (if e == -1 then |s| else e) ==> s[q] != '\n'
  {
    forall q | v <= q < (if e == -1 then |s| else e)
      ensures s[q] != '\n'
    {
      NewlineAt(s, q);
    }
  }

  /** The fragment source with the version line taken to the end of the
      text when no newline follows it, so the effect's text is never
      repeated. */
  function FragmentSource(fragBody: string, utils: string): (r: string)
  {
    var versionPos := Find(fragBody, "#version", 0);
    if versionPos != -1 then
      var cut := VersionLineEnd(fragBody, versionPos);
      fragBody[versionPos..cut] + "\n" + utils + "\n" + fragBody[cut..]
    else
      DefaultVersionLine + utils + "\n" + fragBody
  }

  /** With a newline after `#version` (at `v`, the first newline after it
      at `e`) both versions agree: the version line (newline included), a
      newline, the utilities, a newline, and the text after the version
      line; what precedes `#version` is dropped. */
  lemma SpliceWithVersionLine(fragBody: string, utils: string, v: int, e: int)
    requires |fragBody| < NPos
    requires v == Find(fragBody, "#version", 0) != -1
    requires e == Find(fragBody, "\n", v) != -1
    ensures FragmentSource(fragBody, utils) == fragBody[v..e + 1] + "\n" + utils + "\n" + fragBody[e + 1..]
    ensures FragmentSourceAsWritten(fragBody, utils) == FragmentSource(fragBody, utils)
  {
    SpliceTerminatedCorrected(fragBody, utils, v, e);
    SpliceTerminatedAsWritten(fragBody, utils, v, e);
  }

  lemma SpliceTerminatedCorrected(fragBody: string, utils: string, v: int, e: int)
    requires v == Find(fragBody, "#version", 0) != -1
    requires e == Find(fragBody, "\n", v) != -1
    ensures FragmentSource(fragBody, utils) == fragBody[v..e + 1] + "\n" + utils + "\n" + fragBody[e + 1..]
  {
    assert VersionLineEnd(fragBody, v) == e + 1;
  }

  lemma SpliceTerminatedAsWritten(fragBody: string, utils: string, v: int, e: int)
    requires |fragBody| < NPos
    requires v == Find(fragBody, "#version", 0) != -1
    requires e == Find(fragBody, "\n", v) != -1
    ensures FragmentSourceAsWritten(fragBody, utils) == fragBody[v..e + 1] + "\n" + utils + "\n" + fragBody[e + 1..]
  {
    assert FindPos(fragBody, "#version", 0) == v;
    assert FindPos(fragBody, "\n", v) == e;
    assert FragmentSourceAsWritten(fragBody, utils) == SpliceAsWritten(fragBody, utils, v, e);
    SubstrLine(fragBody, v, e);
    SubstrRest(fragBody, e);
  }

  /** Without `#version` both versions prepend the default directive. */
  lemma SpliceWithoutVersion(fragBody: string, utils: string)
    requires |fragBody| < NPos
    requires Find(fragBody, "#version", 0) == -1
    ensures FragmentSourceAsWritten(fragBody, utils) == FragmentSource(fragBody, utils) ==
              DefaultVersionLine + utils + "\n" + fragBody
  {
  }

  /** As written, a `#version` line with no newline after it is not cut out:
      the whole text follows the utilities, behind an empty version line
      (`#version` at position 0) or behind a copy of everything from
      `#version` on. */
  lemma SpliceUnterminatedAsWritten(fragBody: string, utils: string)
    requires |fragBody| < NPos
    requires Find(fragBody, "#version", 0) != -1
    requires Find(fragBody, "\n", Find(fragBody, "#version", 0)) == -1
    ensures var v := Find(fragBody, "#version", 0);
            FragmentSourceAsWritten(fragBody, utils) ==
              (if v == 0 then "" else fragBody[v..]) + "\n" + utils + "\n" + fragBody
  {
    var v := Find(fragBody, "#version", 0);
    assert FindPos(fragBody, "#version", 0) == v;
    assert FindPos(fragBody, "\n", v) == NPos;
    assert FragmentSourceAsWritten(fragBody, utils) == SpliceAsWritten(fragBody, utils, v, NPos);
    SubstrUnterminated(fragBody, v);
  }

  /** An effect whose text is a lone `#version 330 core` directive gets a
      shader whose first line is empty and whose directive follows the
      utilities: the result does not start with `#version`. */
  lemma SpliceUnterminatedExample(utils: string)
    ensures !("#version" <= FragmentSourceAsWritten("#version 330 core", utils))
    ensures FragmentSourceAsWritten("#version 330 core", utils) == "\n" + utils + "\n" + "#version 330 core"
  {
    LoneDirectiveFinds();
    SpliceUnterminatedAsWritten("#version 330 core", utils);
  }

  /** In a lone `#version 330 core` the directive is at 0 and no newline
      follows it. */
  lemma LoneDirectiveFinds()
    ensures Find("#version 330 core", "#version", 0) == 0
    ensures Find("#version 330 core", "\n", 0) == -1
  {
    var body := "#version 330 core";
    assert MatchAt(body, "#version", 0);
    forall q | 0 <= q
      ensures !MatchAt(body, "\n", q)
    {
      NewlineAt(body, q);
    }
  }

  /** The corrected splice always yields a shader that starts with a
      `#version` directive, as GLSL requires, and contains the utilities
      right after the version line. */
  lemma SpliceStartsWithVersion(fragBody: string, utils: string)
    ensures "#version" <= FragmentSource(fragBody, utils)
    ensures var r := FragmentSource(fragBody, utils);
            exists n :: 0 <= n && n + |utils| + 2 <= |r| && r[n] == '\n' && r[n + 1..n + 1 + |utils|] == utils
  {
    var r := FragmentSource(fragBody, utils);
    var v := Find(fragBody, "#version", 0);
    if v != -1 {
      var cut := VersionLineEnd(fragBody, v);
      var line := fragBody[v..cut];
      assert line[..8] == "#version";
      assert r == line + "\n" + utils + "\n" + fragBody[cut..];
      assert r[|line|] == '\n';
      assert r[|line| + 1..|line| + 1 + |utils|] == utils;
    } else {
      assert r[17] == '\n';
      assert r[18..18 + |utils|] == utils;
    }
  }

  /** Without a newline after `#version`, the corrected splice keeps the
      directive (to the end of the text) in front and adds nothing after
      the utilities. */
  lemma SpliceUnterminatedCorrected(fragBody: string, utils: string)
    requires Find(fragBody, "#version", 0) != -1
    requires Find(fragBody, "\n", Find(fragBody, "#version", 0)) == -1
    ensures FragmentSource(fragBody, utils) == fragBody[Find(fragBody, "#version", 0)..] + "\n" + utils + "\n"
  {
  }

  // ---------------------------------------------------------------------
  // The chain

  /** The first passes `build` makes for the active effects: one pass per
      active effect, in order; every pass but the one of the last effect
      renders into a texture of its own at PRE_RENDER order i + 1, that last
      one draws to the screen at POST_RENDER; pass 0 samples the scene
      texture and pass i + 1 samples pass i's output. */
  ghost predicate Linked(scene: Texture, passes: seq<Pass>, active: seq<NoiseEffect>, utils: string)
  {
    |passes| <= |active| &&
    (forall i :: 0 <= i < |passes| ==> passes[i].effect == active[i]) &&
    (forall i :: 0 <= i < |passes| ==> (passes[i].output == null <==> i == |active| - 1)) &&
    (forall i :: 0 <= i < |passes| ==>
       passes[i].order == if i == |active| - 1 then PostRender else PreRender(i + 1)) &&
    (|passes| > 0 ==> passes[0].input == scene) &&
    (forall i :: 0 < i < |passes| ==> passes[i].input == passes[i - 1].output) &&
    SourcesSpliced(passes, active, utils) &&
    (forall i :: 0 <= i < |passes| ==> passes[i].output != scene) &&
    (forall i, j :: 0 <= i < j < |passes| ==> passes[i].output != passes[j].output)
  }

  /** Each pass's shader is its effect's text with the utilities spliced in
      by `createPass`. */
  ghost predicate SourcesSpliced(passes: seq<Pass>, active: seq<NoiseEffect>, utils: string)
    requires |passes| <= |active|
  {
    forall i :: 0 <= i < |passes| ==>
      passes[i].fragmentSource == FragmentSourceAsWritten(active[i].fragmentSource, utils)
  }

  /** The whole chain: a pass for every active effect. */
  ghost predicate Chained(scene: Texture, passes: seq<Pass>, active: seq<NoiseEffect>, utils: string)
  {
    Linked(scene, passes, active, utils) && |passes| == |active|
  }

  /** A pass built from an effect text whose `#version` line, if any, ends
      in a newline gets the corrected shader: it starts with `#version`. */
  lemma {:induction false} ChainedShaderStartsWithVersion(scene: Texture, passes: seq<Pass>, active: seq<NoiseEffect>,
                                                          utils: string, i: int)
    requires Chained(scene, passes, active, utils) && 0 <= i < |passes|
    requires var body := active[i].fragmentSource;
             Find(body, "#version", 0) == -1 || Find(body, "\n", Find(body, "#version", 0)) != -1
    ensures passes[i].fragmentSource == FragmentSource(active[i].fragmentSource, utils)
    ensures "#version" <= passes[i].fragmentSource
  {
    var body := active[i].fragmentSource;
    var v := Find(body, "#version", 0);
    if v == -1 {
      SpliceWithoutVersion(body, utils);
    } else {
      SpliceWithVersionLine(body, utils, v, Find(body, "\n", v));
    }
    SpliceStartsWithVersion(body, utils);
  }

  /** In a chained graph the scene camera (order 0) renders first and the
      intermediate passes follow in strictly increasing order. */
  lemma RenderOrdersIncrease(scene: Texture, passes: seq<Pass>, active: seq<NoiseEffect>, utils: string)
    requires Chained(scene, passes, active, utils)
    ensures forall i :: 0 <= i < |passes| - 1 ==> passes[i].order.PreRender? && passes[i].order.index > 0
    ensures forall i, j :: 0 <= i < j < |passes| - 1 ==> passes[i].order.index < passes[j].order.index
  {
  }

  /** In a chained graph every texture is sampled by at most one pass, and
      the scene texture only by the first: no pass reads a buffer that
      another pass also reads or that a later pass writes. */
  lemma {:induction false} EachTextureReadOnce(scene: Texture, passes: seq<Pass>, active: seq<NoiseEffect>, utils: string)
    requires Chained(scene, passes, active, utils)
    ensures forall i, j :: 0 <= i < j < |passes| ==> passes[i].input != passes[j].input
    ensures forall i :: 0 < i < |passes| ==> passes[i].input != scene
  {
    forall i, j | 0 <= i < j < |passes|
      ensures passes[i].input != passes[j].input
    {
      assert passes[j].input == passes[j - 1].output;
      if i > 0 {
        assert passes[i].input == passes[i - 1].output;
      }
    }
  }

  class PostProcessChain {
    const width: int
    const height: int
    /** The full-screen-quad vertex shader text. */
    const vertexSource: string
    /** The shared noise-utilities shader text. */
    const utilsSource: string
    var effects: seq<NoiseEffect>

    /** The shader files' contents are the constructor's inputs. */
    constructor (width: nat, height: nat, vertexSource: string, utilsSource: string)
      ensures this.width == width && this.height == height
      ensures this.vertexSource == vertexSource && this.utilsSource == utilsSource
      ensures effects == []
    {
      this.width := width;
      this.height := height;
      this.vertexSource := vertexSource;
      this.utilsSource := utilsSource;
      effects := [];
    }

    /** Appends to the end; earlier effects keep their places. */
    method AddEffect(effect: NoiseEffect)
      modifies this`effects
      ensures effects == old(effects) + [effect]
      ensures |effects| == |old(effects)| + 1 && effects[..|old(effects)|] == old(effects)
    {
      effects := effects + [effect];
    }

    /** `createPass`: a fresh output texture of the chain's size unless the
        pass is final; the final pass is POST_RENDER, any other keeps the
        default order until `build` sets it. */
    method CreatePass(input: Texture, effect: NoiseEffect, isFinal: bool) returns (pass: Pass)
      ensures pass.effect == effect && pass.input == input
      ensures isFinal ==> pass.output == null && pass.order == PostRender
      ensures !isFinal ==> pass.output != null && fresh(pass.output) && pass.order == NestedRender &&
                           pass.output.width == width && pass.output.height == height
      ensures pass.fragmentSource == FragmentSourceAsWritten(effect.fragmentSource, utilsSource)
    {
      var output: Texture? := null;
      var order := PostRender;
      if !isFinal {
        output := new Texture(width, height);
        order := NestedRender;
      }
      var source := FragmentSourceAsWritten(effect.fragmentSource, utilsSource);
      pass := Pass(effect, input, output, order, source);
    }

    /** `build`: the scene camera renders into a fresh texture at PRE_RENDER
        order 0; the enabled effects become a chain of passes; every pass
        whose effect has a frame counter registers a fresh callback, in
        pass order. Nothing that exists already is changed. */
    method Build() returns (g: SceneGraph)
      ensures fresh(g.sceneTexture) && g.sceneTexture.width == width && g.sceneTexture.height == height
      ensures g.sceneOrder == PreRender(0)
      ensures Chained(g.sceneTexture, g.passes, ActiveEffects(effects), utilsSource)
      ensures forall i :: 0 <= i < |g.passes| - 1 ==>
                g.passes[i].output.width == width && g.passes[i].output.height == height
      ensures ActiveEffects(effects) == [] ==> g.passes == [] && g.updateCallbacks == []
      ensures Callbacks(g.updateCallbacks, ActiveEffects(effects))
    {
      var scene := new Texture(width, height);
      var active := FilterActive();
      if active == [] {
        return SceneGraph(scene, PreRender(0), [], []);
      }
      var passes, callbacks := MakePasses(scene, active);
      g := SceneGraph(scene, PreRender(0), passes, callbacks);
    }

    /** The filtering loop of `build`. */
    method FilterActive() returns (active: seq<NoiseEffect>)
      ensures active == ActiveEffects(effects)
    {
      active := [];
      var n := 0;
      while n < |effects|
        invariant 0 <= n <= |effects|
        invariant active == ActiveEffects(effects[..n])
      {
        assert effects[..n + 1][..n] == effects[..n];
        if effects[n].enabled {
          active := active + [effects[n]];
        }
        n := n + 1;
      }
      assert effects[..n] == effects;
    }

    /** The pass loop of `build`: `currentInput` starts as the scene texture
        and becomes each pass's output in turn. */
    method MakePasses(scene: Texture, active: seq<NoiseEffect>) returns (passes: seq<Pass>, callbacks: seq<FrameCallback>)
      requires active != []
      ensures Chained(scene, passes, active, utilsSource)
      ensures forall j :: 0 <= j < |passes| - 1 ==>
                passes[j].output.width == width && passes[j].output.height == height
      ensures Callbacks(callbacks, active)
    {
      passes := [];
      callbacks := [];
      var currentInput: Texture? := scene;
      while |passes| < |active|
        invariant Linked(scene, passes, active, utilsSource)
        invariant OutputsSized(passes, |active| - 1, width, height)
        invariant currentInput == if |passes| == 0 then scene else passes[|passes| - 1].output
        invariant |passes| < |active| ==> currentInput != null
        invariant Callbacks(callbacks, active[..|passes|])
        decreases |active| - |passes|
      {
        passes, callbacks := ChainStep(scene, active, passes, callbacks, currentInput);
        currentInput := passes[|passes| - 1].output;
      }
      assert active[..|passes|] == active;
    }

    /** One iteration of the pass loop: the pass for effect i and its
        update callback, if any. */
    method ChainStep(scene: Texture, active: seq<NoiseEffect>, passes: seq<Pass>, callbacks: seq<FrameCallback>,
                     currentInput: Texture)
      returns (passes': seq<Pass>, callbacks': seq<FrameCallback>)
      requires Linked(scene, passes, active, utilsSource) && |passes| < |active|
      requires OutputsSized(passes, |active| - 1, width, height)
      requires currentInput == if |passes| == 0 then scene else passes[|passes| - 1].output
      requires Callbacks(callbacks, active[..|passes|])
      ensures Linked(scene, passes', active, utilsSource)
      ensures |passes'| == |passes| + 1 && passes'[..|passes|] == passes
      ensures OutputsSized(passes', |active| - 1, width, height)
      ensures |passes'| < |active| ==> passes'[|passes'| - 1].output != null
      ensures Callbacks(callbacks', active[..|passes'|])
    {
      var i := |passes|;
      passes' := AddPass(scene, active, passes, currentInput);
      OutputsSizedStep(passes, passes', |active| - 1, width, height);
      callbacks' := RegisterCallback(callbacks, active[..i], active[i]);
      PrefixGrows(active, i);
    }

    /** One iteration of the pass loop: the pass for effect i, with
        `isFinal` exactly for the last effect and PRE_RENDER order i + 1
        otherwise, appended. */
    method AddPass(scene: Texture, active: seq<NoiseEffect>, passes: seq<Pass>, currentInput: Texture)
      returns (passes': seq<Pass>)
      requires Linked(scene, passes, active, utilsSource) && |passes| < |active|
      requires currentInput == if |passes| == 0 then scene else passes[|passes| - 1].output
      ensures Linked(scene, passes', active, utilsSource)
      ensures |passes'| == |passes| + 1 && passes'[..|passes|] == passes
      ensures |passes| < |active| - 1 ==>
                passes'[|passes|].output != null && fresh(passes'[|passes|].output) &&
                passes'[|passes|].output.width == width && passes'[|passes|].output.height == height
    {
      var i := |passes|;
      var isFinal := i == |active| - 1;
      var pass := CreatePass(currentInput, active[i], isFinal);
      if !isFinal {
        pass := pass.(order := PreRender(i + 1));
      }
      LinkedStep(scene, passes, active, utilsSource, pass);
      passes' := passes + [pass];
    }

    /** `createUpdateCallback` of the pass's effect, registered when not
        null. */
    method RegisterCallback(callbacks: seq<FrameCallback>, done: seq<NoiseEffect>, e: NoiseEffect)
      returns (callbacks': seq<FrameCallback>)
      requires Callbacks(callbacks, done)
      ensures Callbacks(callbacks', done + [e])
      ensures callbacks' == callbacks ||
              (|callbacks'| == |callbacks| + 1 && callbacks'[..|callbacks|] == callbacks &&
               fresh(callbacks'[|callbacks|]))
    {
      var cb := e.CreateUpdateCallback();
      callbacks' := callbacks;
      if cb != null {
        callbacks' := callbacks + [cb];
      }
      CallbacksStep(callbacks, callbacks', done, e, cb);
    }
  }

  /** The next prefix of the active effects is the current one and one more. */
  lemma PrefixGrows(active: seq<NoiseEffect>, i: int)
    requires 0 <= i < |active|
    ensures active[..i + 1] == active[..i] + [active[i]]
  {
  }

  /** The passes before position `last` render into textures of size w x h. */
  ghost predicate OutputsSized(passes: seq<Pass>, last: int, w: int, h: int) {
    forall j :: 0 <= j < |passes| && j < last ==>
      passes[j].output != null && passes[j].output.width == w && passes[j].output.height == h
  }

  /** Appending a pass whose output (if it comes before `last`) has the size
      keeps every output sized. */
  lemma OutputsSizedStep(passes: seq<Pass>, passes': seq<Pass>, last: int, w: int, h: int)
    requires OutputsSized(passes, last, w, h)
    requires |passes'| == |passes| + 1 && passes'[..|passes|] == passes
    requires |passes| < last ==>
               passes'[|passes|].output != null &&
               passes'[|passes|].output.width == w && passes'[|passes|].output.height == h
    ensures OutputsSized(passes', last, w, h)
  {
    assert forall j :: 0 <= j < |passes| ==> passes'[j] == passes[j];
  }

  /** One step of the pass loop keeps the passes linked. */
  lemma LinkedStep(scene: Texture, passes: seq<Pass>, active: seq<NoiseEffect>, utils: string, pass: Pass)
    requires Linked(scene, passes, active, utils) && |passes| < |active|
    requires pass.effect == active[|passes|]
    requires pass.output == null <==> |passes| == |active| - 1
    requires pass.order == if |passes| == |active| - 1 then PostRender else PreRender(|passes| + 1)
    requires pass.input == if |passes| == 0 then scene else passes[|passes| - 1].output
    requires pass.fragmentSource == FragmentSourceAsWritten(active[|passes|].fragmentSource, utils)
    requires pass.output != scene
    requires forall j :: 0 <= j < |passes| ==> passes[j].output != pass.output
    ensures Linked(scene, passes + [pass], active, utils)
  {
    StepKeepsPassesFit(passes, active, utils, pass);
    StepKeepsInputsChained(scene, passes, pass);
    StepKeepsOutputsDistinct(scene, passes, pass);
  }

  lemma StepKeepsPassesFit(passes: seq<Pass>, active: seq<NoiseEffect>, utils: string, pass: Pass)
    requires |passes| < |active|
    requires forall i :: 0 <= i < |passes| ==> passes[i].effect == active[i]
    requires forall i :: 0 <= i < |passes| ==> (passes[i].output == null <==> i == |active| - 1)
    requires forall i :: 0 <= i < |passes| ==>
               passes[i].order == if i == |active| - 1 then PostRender else PreRender(i + 1)
    requires SourcesSpliced(passes, active, utils)
    requires pass.effect == active[|passes|]
    requires pass.output == null <==> |passes| == |active| - 1
    requires pass.order == if |passes| == |active| - 1 then PostRender else PreRender(|passes| + 1)
    requires pass.fragmentSource == FragmentSourceAsWritten(active[|passes|].fragmentSource, utils)
    ensures var ps := passes + [pass];
            (forall i :: 0 <= i < |ps| ==> ps[i].effect == active[i]) &&
            (forall i :: 0 <= i < |ps| ==> (ps[i].output == null <==> i == |active| - 1)) &&
            (forall i :: 0 <= i < |ps| ==>
               ps[i].order == if i == |active| - 1 then PostRender else PreRender(i + 1)) &&
            SourcesSpliced(ps, active, utils)
  {
    var ps := passes + [pass];
    assert forall i :: 0 <= i < |passes| ==> ps[i] == passes[i];
  }

  lemma StepKeepsInputsChained(scene: Texture, passes: seq<Pass>, pass: Pass)
    requires |passes| > 0 ==> passes[0].input == scene
    requires forall i :: 0 < i < |passes| ==> passes[i].input == passes[i - 1].output
    requires pass.input == if |passes| == 0 then scene else passes[|passes| - 1].output
    ensures var ps := passes + [pass];
            ps[0].input == scene && forall i :: 0 < i < |ps| ==> ps[i].input == ps[i - 1].output
  {
    var ps := passes + [pass];
    assert forall i :: 0 <= i < |passes| ==> ps[i] == passes[i];
  }

  lemma StepKeepsOutputsDistinct(scene: Texture, passes: seq<Pass>, pass: Pass)
    requires forall i :: 0 <= i < |passes| ==> passes[i].output != scene
    requires forall i, j :: 0 <= i < j < |passes| ==> passes[i].output != passes[j].output
    requires pass.output != scene
    requires forall j :: 0 <= j < |passes| ==> passes[j].output != pass.output
    ensures var ps := passes + [pass];
            (forall i :: 0 <= i < |ps| ==> ps[i].output != scene) &&
            (forall i, j :: 0 <= i < j < |ps| ==> ps[i].output != ps[j].output)
  {
    var ps := passes + [pass];
    assert forall i :: 0 <= i < |passes| ==> ps[i] == passes[i];
  }

  /** The effects, in order, whose update callback is not the null default. */
  function TemporalEffects(active: seq<NoiseEffect>): (r: seq<NoiseEffect>)
    ensures |r| <= |active|
    ensures forall k :: 0 <= k < |r| ==> r[k] in active && r[k].frameUniform != null
  {
    if active == [] then []
    else
      var init := TemporalEffects(active[..|active| - 1]);
      var last := active[|active| - 1];
      if last.frameUniform != null then init + [last] else init
  }

  /** The registered callbacks are counters starting at 0, one per temporal
      effect, each bound to that effect's frame uniform. */
  ghost predicate Callbacks(cbs: seq<FrameCallback>, active: seq<NoiseEffect>)
    reads set k | 0 <= k < |cbs| :: cbs[k]
  {
    var t := TemporalEffects(active);
    |cbs| == |t| &&
    forall k :: 0 <= k < |cbs| ==> cbs[k].u == t[k].frameUniform && cbs[k].f == 0 && cbs[k].Valid()
  }

  /** One registration step of `build`. */
  lemma CallbacksStep(cbs0: seq<FrameCallback>, cbs: seq<FrameCallback>, active: seq<NoiseEffect>,
                      e: NoiseEffect, cb: FrameCallback?)
    requires Callbacks(cbs0, active)
    requires e.frameUniform == null ==> cb == null && cbs == cbs0
    requires e.frameUniform != null ==>
               cb != null && cb.u == e.frameUniform && cb.f == 0 && cb.Valid() && cbs == cbs0 + [cb]
    ensures Callbacks(cbs, active + [e])
  {
    assert (active + [e])[..|active|] == active;
  }
}
