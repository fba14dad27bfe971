/**
 * The host side of particle rendering: the layout of the render constants,
 * the insert handler that publishes it, and the uniform buffer built for
 * each frame from the inputs and the values the renderer sets itself.
 */
module Render {
  import opened Wrappers
  import opened Text
  import opened Scene
  import opened BufferFactory

  /** The fields of `RenderConstants`: four `vec2f` then two `f32`, none needing padding. */
  const RenderConstantsLayout: seq<Element> := [
    Element("particleRadiusTimestamp", Vec2f, Undefined, 0, 2),
    Element("canvasSize", Vec2f, Undefined, 2, 2),
    Element("viewPos", Vec2f, Undefined, 4, 2),
    Element("viewExtent", Vec2f, Undefined, 6, 2),
    Element("renderMode", F32, Undefined, 8, 1),
    Element("deltaTime", F32, Undefined, 9, 1)]

  /** Ten words of fields, rounded up to sixteen for a uniform buffer. */
  const RenderConstantsWords: nat := 16

  /** The `RenderConstants` fields sit back to back from word 0 and end at word 10. */
  lemma RenderLayout()
    ensures IsLayout(RenderConstantsLayout) && End(RenderConstantsLayout) == 10
  {
    BackToBack(RenderConstantsLayout);
  }

  /** The `RenderConstants` factory, compiled. */
  method BuildRenderConstants() returns (f: Factory)
    ensures fresh(f) && f.Valid() && f.compiled && f.name == "RenderConstants" && f.mode == Uniform
    ensures f.elements == RenderConstantsLayout && f.paddingCount == 0 && f.totalCount == RenderConstantsWords
  {
    f := new Factory("RenderConstants", Uniform);
    AddAligned(f, "particleRadiusTimestamp", Vec2f);
    AddAligned(f, "canvasSize", Vec2f);
    AddAligned(f, "viewPos", Vec2f);
    AddAligned(f, "viewExtent", Vec2f);
    AddAligned(f, "renderMode", F32);
    AddAligned(f, "deltaTime", F32);
    f.Compile();
  }

  /**
   * What `constructRenderUniformBuffer` reads: the inputs object, whose own
   * properties form the first layer, and the grid size, canvas resolution
   * and simulation rate it computes with.
   */
  datatype RenderInputs = RenderInputs(fields: map<string, Value>, gridSize: Vec2, resolution: Vec2, simRate: real)

  predicate RenderInputsValid(ri: RenderInputs) {
    ri.simRate > 0.0 && LayerFits(RenderConstantsLayout, ri.fields)
  }

  /** The view is centred on the grid: its position is half the grid size. */
  function ViewPos(gridSize: Vec2): (p: Vec2)
    ensures p.x * 2.0 == gridSize.x && p.y * 2.0 == gridSize.y
  {
    Vec2(gridSize.x / 2.0, gridSize.y / 2.0)
  }

  /** The keys the renderer sets itself, whatever the inputs hold. */
  const RenderDirectKeys: set<string> := {"particleRadiusTimestamp", "canvasSize", "viewPos", "viewExtent", "deltaTime"}

  /**
   * The values set directly: a fixed particle radius and timestamp, the
   * canvas size, the view (its extent equal to its position), and the time
   * step. `renderMode` is not among them.
   */
  function RenderDirectValues(ri: RenderInputs): (m: map<string, Value>)
    requires ri.simRate > 0.0
    ensures m.Keys == RenderDirectKeys && "renderMode" !in m
    ensures forall key | key in m :: m[key] != Undefined
    ensures m["viewExtent"] == m["viewPos"]
  {
    var view := ViewPos(ri.gridSize);
    map["particleRadiusTimestamp" := Vec([0.5, 0.0]),
        "canvasSize" := Vec([ri.resolution.x, ri.resolution.y]),
        "viewPos" := Vec([view.x, view.y]),
        "viewExtent" := Vec([view.x, view.y]),
        "deltaTime" := Num(1.0 / ri.simRate)]
  }

  /** The layers in order: the inputs, then the direct values. */
  function RenderLayers(ri: RenderInputs): seq<map<string, Value>>
    requires ri.simRate > 0.0
  {
    [ri.fields, RenderDirectValues(ri)]
  }

  /** The direct values have the shapes of the fields they name, so the layers fit whenever the inputs do. */
  lemma RenderLayersFit(ri: RenderInputs)
    requires RenderInputsValid(ri)
    ensures LayersFit(RenderConstantsLayout, RenderLayers(ri))
  {
    var layers := RenderLayers(ri);
    assert layers[0] == ri.fields && layers[1] == RenderDirectValues(ri);
  }

  /** The value a field ends up with: the direct value if there is one, else the input's, else `undefined`. */
  function RenderFieldValue(ri: RenderInputs, name: string): Value
    requires ri.simRate > 0.0
  {
    var direct := RenderDirectValues(ri);
    if name in direct then direct[name] else if name in ri.fields then ri.fields[name] else Undefined
  }

  lemma RenderBinding(ri: RenderInputs, name: string)
    requires ri.simRate > 0.0
    ensures LastBinding(RenderLayers(ri), name) == RenderFieldValue(ri, name)
  {
    LastBindingTwo(ri.fields, RenderDirectValues(ri), name);
  }

  /** The `RenderConstants` buffer: the layout resolved against the layers and packed into 16 words. */
  function RenderUniform(ri: RenderInputs): Result<seq<Word>, LayoutError>
    requires RenderInputsValid(ri)
  {
    RenderLayout();
    RenderLayersFit(ri);
    ResolveKeepsLayout(RenderConstantsLayout, RenderLayers(ri));
    Pack(Resolve(RenderConstantsLayout, RenderLayers(ri)), RenderConstantsWords)
  }

  lemma RenderModeNotPadding()
    ensures !Contains("renderMode", "padding")
  {
    forall i | 0 <= i <= |"renderMode"| ensures !OccursAt("renderMode", "padding", i) {
      if i + 7 <= 10 {
        assert "renderMode"[i..i + 7][0] == "renderMode"[i] != 'p';
      }
    }
  }

  /** Building the buffer fails exactly when the inputs give no `renderMode`, the one field they alone supply. */
  lemma RenderUniformOk(ri: RenderInputs)
    requires RenderInputsValid(ri)
    ensures RenderUniform(ri).Ok? <==> "renderMode" in ri.fields && ri.fields["renderMode"] != Undefined
    ensures RenderUniform(ri).Err? ==> RenderUniform(ri).error == NeverSet("renderMode")
  {
    var layers := RenderLayers(ri);
    RenderLayout();
    RenderLayersFit(ri);
    ResolveBinds(RenderConstantsLayout, layers);
    var resolved := Resolve(RenderConstantsLayout, layers);
    forall i | 0 <= i < |RenderConstantsLayout| && i != 4
      ensures !IsUnset(resolved[i])
    {
      RenderBinding(ri, RenderConstantsLayout[i].name);
    }
    RenderBinding(ri, "renderMode");
    if "renderMode" in ri.fields && ri.fields["renderMode"] != Undefined {
      assert !IsUnset(resolved[4]);
      assert FirstUnset(resolved) == -1 by {
        assert UnsetFrom(resolved, 0) == UnsetFrom(resolved, 6);
      }
    } else {
      RenderModeNotPadding();
      assert IsUnset(resolved[4]);
      assert FirstUnset(resolved) == 4 by {
        assert UnsetFrom(resolved, 0) == UnsetFrom(resolved, 4);
      }
    }
  }

  /**
   * Word `offset + j` of field `i` of a built `RenderConstants` buffer: the
   * encoding of the field's value (direct values win over the inputs).
   */
  lemma RenderUniformWord(ri: RenderInputs, i: nat, j: nat)
    requires RenderInputsValid(ri) && RenderUniform(ri).Ok?
    requires i < |RenderConstantsLayout| && j < RenderConstantsLayout[i].slotCount
    ensures Fits(RenderConstantsLayout[i].ty, RenderFieldValue(ri, RenderConstantsLayout[i].name))
    ensures RenderConstantsLayout[i].offset + j < |RenderUniform(ri).value| == RenderConstantsWords
    ensures RenderUniform(ri).value[RenderConstantsLayout[i].offset + j] ==
      var v := RenderFieldValue(ri, RenderConstantsLayout[i].name);
      if v == Undefined then Zero else Encode(RenderConstantsLayout[i].ty, v)[j]
  {
    var layers := RenderLayers(ri);
    RenderLayout();
    RenderLayersFit(ri);
    RenderBinding(ri, RenderConstantsLayout[i].name);
    ResolvedWord(RenderConstantsLayout, layers, i, j);
    FieldWithinEnd(RenderConstantsLayout, i);
    ResolveKeepsLayout(RenderConstantsLayout, layers);
    PackWord(Resolve(RenderConstantsLayout, layers), RenderConstantsWords, RenderConstantsLayout[i].offset + j);
  }

  /** The radius word is 0.5 and the timestamp word 0, and the canvas words are the resolution. */
  lemma RenderUniformCanvas(ri: RenderInputs)
    requires RenderInputsValid(ri) && RenderUniform(ri).Ok?
    ensures |RenderUniform(ri).value| == RenderConstantsWords
    ensures RenderUniform(ri).value[0] == FloatWord(0.5) && RenderUniform(ri).value[1] == FloatWord(0.0)
    ensures RenderUniform(ri).value[2] == FloatWord(ri.resolution.x) && RenderUniform(ri).value[3] == FloatWord(ri.resolution.y)
  {
    RenderUniformWord(ri, 0, 0);
    RenderUniformWord(ri, 0, 1);
    RenderUniformWord(ri, 1, 0);
    RenderUniformWord(ri, 1, 1);
  }

  /** The view position and the view extent words are both half the grid size. */
  lemma RenderUniformView(ri: RenderInputs)
    requires RenderInputsValid(ri) && RenderUniform(ri).Ok?
    ensures |RenderUniform(ri).value| == RenderConstantsWords
    ensures RenderUniform(ri).value[4] == RenderUniform(ri).value[6] == FloatWord(ViewPos(ri.gridSize).x)
    ensures RenderUniform(ri).value[5] == RenderUniform(ri).value[7] == FloatWord(ViewPos(ri.gridSize).y)
  {
    RenderUniformWord(ri, 2, 0);
    RenderUniformWord(ri, 2, 1);
    RenderUniformWord(ri, 3, 0);
    RenderUniformWord(ri, 3, 1);
  }

  /** The render mode word comes from the inputs; the time step word is `1 / simRate`, whatever the inputs say. */
  lemma RenderUniformModeAndStep(ri: RenderInputs)
    requires RenderInputsValid(ri) && RenderUniform(ri).Ok?
    ensures "renderMode" in ri.fields && ri.fields["renderMode"].Num?
    ensures |RenderUniform(ri).value| == RenderConstantsWords
    ensures RenderUniform(ri).value[8] == FloatWord(ri.fields["renderMode"].x)
    ensures RenderUniform(ri).value[9] == FloatWord(1.0 / ri.simRate)
  {
    RenderUniformOk(ri);
    RenderUniformWord(ri, 4, 0);
    RenderUniformWord(ri, 5, 0);
  }

  /** The six words of the round-up to 16 after `deltaTime` stay zero. */
  lemma RenderUniformTail(ri: RenderInputs, k: nat)
    requires RenderInputsValid(ri) && RenderUniform(ri).Ok?
    requires 10 <= k < RenderConstantsWords
    ensures |RenderUniform(ri).value| == RenderConstantsWords
    ensures RenderUniform(ri).value[k] == Zero
  {
    var layers := RenderLayers(ri);
    RenderLayout();
    RenderLayersFit(ri);
    ResolveKeepsLayout(RenderConstantsLayout, layers);
    WordAtBeyondEnd(Resolve(RenderConstantsLayout, layers), k);
    PackWord(Resolve(RenderConstantsLayout, layers), RenderConstantsWords, k);
  }

  /** The renderer's state: the compiled `RenderConstants` factory that `init` stores. */
  class Renderer {
    const factory: Factory

    /** The factory holds the compiled layout, up to the values of the last buffer built. */
    ghost predicate Valid()
      reads factory
    {
      && factory.Valid() && factory.compiled && factory.mode == Uniform
      && ClearValues(factory.elements) == RenderConstantsLayout && factory.totalCount == RenderConstantsWords
    }

    constructor (factory: Factory)
      requires factory.Valid() && factory.compiled && factory.mode == Uniform
      requires factory.elements == RenderConstantsLayout && factory.totalCount == RenderConstantsWords
      ensures Valid() && this.factory == factory
    {
      this.factory := factory;
      new;
      assert ClearValues(RenderConstantsLayout) == RenderConstantsLayout;
    }

    /**
     * `constructRenderUniformBuffer`: the inputs, then the direct values,
     * resolved and packed; it fails exactly when `renderMode` is missing.
     */
    method ConstructRenderUniformBuffer(ri: RenderInputs) returns (r: Result<seq<Word>, LayoutError>)
      requires Valid() && RenderInputsValid(ri)
      modifies factory
      ensures Valid()
      ensures r == RenderUniform(ri)
    {
      var direct := RenderDirectValues(ri);
      var layers := [ri.fields, direct];
      RenderLayout();
      RenderLayersFit(ri);
      assert ClearValues(RenderConstantsLayout) == RenderConstantsLayout;
      forall l | 0 <= l < |layers| ensures LayerFits(factory.elements, layers[l]) {
        SameShapeFits(factory.elements, RenderConstantsLayout, layers[l]);
      }
      r := factory.ConstructUniformBuffer(layers);
      assert Resolve(old(factory.elements), layers) == Resolve(RenderConstantsLayout, layers);
      ResolveKeepsLayout(RenderConstantsLayout, layers);
    }
  }

  /** `init`: builds the factory and publishes its struct declaration under its name. */
  method Init(handlers: map<string, string>) returns (renderer: Renderer, published: map<string, string>)
    ensures fresh(renderer) && fresh(renderer.factory) && renderer.Valid()
    ensures published == handlers["RenderConstants" := StructText("RenderConstants", RenderConstantsLayout)]
  {
    var factory := BuildRenderConstants();
    var text := factory.GetShaderText();
    published := handlers[factory.name := text];
    renderer := new Renderer(factory);
  }
}
