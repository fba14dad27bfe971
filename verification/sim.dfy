/**
 * The host side of the particle simulation: the layouts of the simulation
 * constants and of a shape record, the insert handlers the simulation
 * publishes, the bucket system's sizes, the per-shape records, the
 * constants buffer, and the commands one frame records.
 */
module Sim {
  import opened Wrappers
  import opened Text
  import opened Scene
  import opened BufferFactory
  import Gpu
  import Time

  // ---------------------------------------------------------------------
  // Constants shared with the shaders
  // ---------------------------------------------------------------------

  const ParticleDispatchSize: nat := 64
  const GridDispatchSize: nat := 8
  const BukkitSize: nat := 6
  const BukkitHaloSize: nat := 1

  const DispatchSizeEntries: seq<(string, nat)> := [
    ("ParticleDispatchSize", ParticleDispatchSize),
    ("GridDispatchSize", GridDispatchSize),
    ("BukkitSize", BukkitSize),
    ("BukkitHaloSize", BukkitHaloSize)]

  const SimEnumEntries: seq<(string, nat)> := [
    ("SolverTypePBMPM", 1),
    ("MouseFunctionPush", 0),
    ("MouseFunctionGrab", 1),
    ("MaterialLiquid", 0),
    ("MaterialElastic", 1),
    ("MaterialSand", 2),
    ("MaterialVisco", 3),
    ("GuardianSize", 3),
    ("ShapeTypeBox", 0),
    ("ShapeTypeCircle", 1),
    ("ShapeFunctionEmit", 0),
    ("ShapeFunctionCollider", 1),
    ("ShapeFunctionDrain", 2),
    ("ShapeFunctionInitialEmit", 3)]

  const RenderEnumEntries: seq<(string, nat)> := [
    ("RenderModeStandard", 0),
    ("RenderModeCompression", 1),
    ("RenderModeVelocity", 2)]

  /** The WGSL declaration of one named constant. */
  function Declaration(entry: (string, nat)): string {
    "const " + entry.0 + " = " + NatToString(entry.1) + ";\n"
  }

  /** One WGSL constant declaration per entry, in key order. */
  function EnumText(entries: seq<(string, nat)>): string
    decreases |entries|
  {
    if |entries| == 0 then "" else EnumText(entries[..|entries| - 1]) + Declaration(entries[|entries| - 1])
  }

  /** The declarations of a concatenation are the two blocks of declarations one after the other. */
  lemma {:induction false} EnumTextConcat(a: seq<(string, nat)>, b: seq<(string, nat)>)
    ensures EnumText(a + b) == EnumText(a) + EnumText(b)
    decreases |b|
  {
    if |b| > 0 {
      var n := |b| - 1;
      assert (a + b)[..|a + b| - 1] == a + b[..n];
      assert (a + b)[|a + b| - 1] == b[n];
      EnumTextConcat(a, b[..n]);
    } else {
      assert a + b == a;
    }
  }

  /** `enumInsertHandler`: the declarations built up key by key. */
  method EnumInsertHandler(entries: seq<(string, nat)>) returns (text: string)
    ensures text == EnumText(entries)
  {
    text := "";
    for k := 0 to |entries|
      invariant text == EnumText(entries[..k])
    {
      assert entries[..k + 1][..k] == entries[..k];
      text := text + Declaration(entries[k]);
    }
    assert entries[..|entries|] == entries;
  }

  // ---------------------------------------------------------------------
  // Buffer layouts
  // ---------------------------------------------------------------------

  /** The grid, the mouse and the first material parameters of `SimConstants`. */
  const ConstantsGrid: seq<Element> := [
    Element("gridSize", Vec2u, Undefined, 0, 2),
    Element("deltaTime", F32, Undefined, 2, 1),
    Element("mouseActivation", F32, Undefined, 3, 1),
    Element("mousePosition", Vec2f, Undefined, 4, 2),
    Element("mouseVelocity", Vec2f, Undefined, 6, 2),
    Element("mouseFunction", F32, Undefined, 8, 1),
    Element("elasticityRatio", F32, Undefined, 9, 1),
    Element("gravityStrength", F32, Undefined, 10, 1),
    Element("liquidRelaxation", F32, Undefined, 11, 1)]

  /** The remaining material parameters. */
  const ConstantsMaterial: seq<Element> := [
    Element("elasticRelaxation", F32, Undefined, 12, 1),
    Element("liquidViscosity", F32, Undefined, 13, 1),
    Element("fixedPointMultiplier", U32, Undefined, 14, 1),
    Element("useGridVolumeForLiquid", U32, Undefined, 15, 1),
    Element("particlesPerCellAxis", U32, Undefined, 16, 1)]

  /** Friction, plasticity, the mouse radius and the per-dispatch counters. */
  const ConstantsFrame: seq<Element> := [
    Element("frictionAngle", F32, Undefined, 17, 1),
    Element("plasticity", F32, Undefined, 18, 1),
    Element("mouseRadius", F32, Undefined, 19, 1),
    Element("shapeCount", U32, Undefined, 20, 1),
    Element("simFrame", U32, Undefined, 21, 1),
    Element("bukkitCount", U32, Undefined, 22, 1),
    Element("bukkitCountX", U32, Undefined, 23, 1),
    Element("bukkitCountY", U32, Undefined, 24, 1),
    Element("iteration", U32, Undefined, 25, 1),
    Element("iterationCount", U32, Undefined, 26, 1)]

  /** The fields of `SimConstants`, back to back, none needing padding. */
  const SimConstantsLayout: seq<Element> := ConstantsGrid + ConstantsMaterial + ConstantsFrame

  /** Where a shape is, its extent and rotation, and what it does. */
  const ShapePlacement: seq<Element> := [
    Element("position", Vec2f, Undefined, 0, 2),
    Element("halfSize", Vec2f, Undefined, 2, 2),
    Element("radius", F32, Undefined, 4, 1),
    Element("rotation", F32, Undefined, 5, 1),
    Element("functionality", F32, Undefined, 6, 1)]

  /** The kind of shape, its emission settings and a padding word. */
  const ShapeBehaviour: seq<Element> := [
    Element("shapeType", F32, Undefined, 7, 1),
    Element("emitMaterial", F32, Undefined, 8, 1),
    Element("emissionRate", F32, Undefined, 9, 1),
    Element("emissionSpeed", F32, Undefined, 10, 1),
    Element("padding", F32, Undefined, 11, 1)]

  /** The fields of one `SimShape` record; `padding` is an ordinary field. */
  const SimShapeLayout: seq<Element> := ShapePlacement + ShapeBehaviour

  const SimConstantsWords: nat := 32
  const SimShapeWords: nat := 12

  /** The first half of the `SimConstants` fields, up to `liquidRelaxation`. */
  method AddSimConstantsHead(f: Factory)
    requires f.Valid() && !f.compiled && f.totalCount == 0 && f.paddingCount == 0
    modifies f
    ensures f.Valid() && !f.compiled && f.paddingCount == 0
    ensures f.elements == old(f.elements) + ConstantsGrid && f.totalCount == 12
  {
    AddAligned(f, "gridSize", Vec2u);
    AddAligned(f, "deltaTime", F32);
    AddAligned(f, "mouseActivation", F32);
    AddAligned(f, "mousePosition", Vec2f);
    AddAligned(f, "mouseVelocity", Vec2f);
    AddAligned(f, "mouseFunction", F32);
    AddAligned(f, "elasticityRatio", F32);
    AddAligned(f, "gravityStrength", F32);
    AddAligned(f, "liquidRelaxation", F32);
  }

  /** The material parameters, up to `particlesPerCellAxis`. */
  method AddSimConstantsMiddle(f: Factory)
    requires f.Valid() && !f.compiled && f.totalCount == 12 && f.paddingCount == 0
    modifies f
    ensures f.Valid() && !f.compiled && f.paddingCount == 0
    ensures f.elements == old(f.elements) + ConstantsMaterial && f.totalCount == 17
  {
    AddAligned(f, "elasticRelaxation", F32);
    AddAligned(f, "liquidViscosity", F32);
    AddAligned(f, "fixedPointMultiplier", U32);
    AddAligned(f, "useGridVolumeForLiquid", U32);
    AddAligned(f, "particlesPerCellAxis", U32);
  }

  /** Friction, plasticity, the mouse radius and the shape count. */
  method AddSimConstantsFrame(f: Factory)
    requires f.Valid() && !f.compiled && f.totalCount == 17 && f.paddingCount == 0
    modifies f
    ensures f.Valid() && !f.compiled && f.paddingCount == 0
    ensures f.elements == old(f.elements) + ConstantsFrame[..4] && f.totalCount == 21
  {
    AddAligned(f, "frictionAngle", F32);
    AddAligned(f, "plasticity", F32);
    AddAligned(f, "mouseRadius", F32);
    AddAligned(f, "shapeCount", U32);
  }

  /** The per-dispatch counters that close `SimConstants`. */
  method AddSimConstantsCounters(f: Factory)
    requires f.Valid() && !f.compiled && f.totalCount == 21 && f.paddingCount == 0
    modifies f
    ensures f.Valid() && !f.compiled && f.paddingCount == 0
    ensures f.elements == old(f.elements) + ConstantsFrame[4..] && f.totalCount == 27
  {
    AddAligned(f, "simFrame", U32);
    AddAligned(f, "bukkitCount", U32);
    AddAligned(f, "bukkitCountX", U32);
    AddAligned(f, "bukkitCountY", U32);
    AddAligned(f, "iteration", U32);
    AddAligned(f, "iterationCount", U32);
  }

  /** The `SimConstants` factory: 27 words of fields, rounded up to 32 for a uniform buffer. */
  method BuildSimConstants() returns (f: Factory)
    ensures fresh(f) && f.Valid() && f.compiled && f.name == "SimConstants" && f.mode == Uniform
    ensures f.elements == SimConstantsLayout && f.paddingCount == 0 && f.totalCount == SimConstantsWords
  {
    f := new Factory("SimConstants", Uniform);
    AddSimConstantsHead(f);
    assert f.elements == ConstantsGrid;
    AddSimConstantsMiddle(f);
    AddSimConstantsFrame(f);
    AddSimConstantsCounters(f);
    assert f.elements == ConstantsGrid + ConstantsMaterial + (ConstantsFrame[..4] + ConstantsFrame[4..]);
    f.Compile();
  }

  /** The `SimShape` factory: 12 words per record, no rounding for a storage buffer. */
  method BuildSimShape() returns (f: Factory)
    ensures fresh(f) && f.Valid() && f.compiled && f.name == "SimShape" && f.mode == Storage
    ensures f.elements == SimShapeLayout && f.paddingCount == 0 && f.totalCount == SimShapeWords
  {
    f := new Factory("SimShape", Storage);
    AddSimShapeHead(f);
    AddSimShapeTail(f);
    f.Compile();
  }

  /** The placement of a shape: its position, extent and rotation, and what it does. */
  method AddSimShapeHead(f: Factory)
    requires f.Valid() && !f.compiled && f.totalCount == 0 && f.paddingCount == 0
    modifies f
    ensures f.Valid() && !f.compiled && f.paddingCount == 0
    ensures f.elements == old(f.elements) + ShapePlacement && f.totalCount == 7
  {
    AddAligned(f, "position", Vec2f);
    AddAligned(f, "halfSize", Vec2f);
    AddAligned(f, "radius", F32);
    AddAligned(f, "rotation", F32);
    AddAligned(f, "functionality", F32);
  }

  /** The shape type, the emission settings and the padding word. */
  method AddSimShapeTail(f: Factory)
    requires f.Valid() && !f.compiled && f.totalCount == 7 && f.paddingCount == 0
    modifies f
    ensures f.Valid() && !f.compiled && f.paddingCount == 0
    ensures f.elements == old(f.elements) + ShapeBehaviour && f.totalCount == SimShapeWords
  {
    AddAligned(f, "shapeType", F32);
    AddAligned(f, "emitMaterial", F32);
    AddAligned(f, "emissionRate", F32);
    AddAligned(f, "emissionSpeed", F32);
    AddAligned(f, "padding", F32);
  }

  /** The handlers `init` publishes, over whatever the map held before. */
  function SimHandlers(handlers: map<string, string>): map<string, string> {
    handlers["SimEnums" := EnumText(SimEnumEntries)]
            ["RenderEnums" := EnumText(RenderEnumEntries)]
            ["DispatchSizes" := EnumText(DispatchSizeEntries)]
            ["SimConstants" := StructText("SimConstants", SimConstantsLayout)]
            ["SimShape" := StructText("SimShape", SimShapeLayout)]
  }

  /**
   * `init`: builds both factories and publishes the enumerations, the
   * dispatch sizes and the two struct declarations as insert handlers.
   */
  method Init(handlers: map<string, string>) returns (sim: Simulator, published: map<string, string>)
    ensures fresh(sim) && fresh(sim.simFactory) && fresh(sim.shapeFactory) && sim.Valid()
    ensures sim.substepIndex == 0
    ensures published == SimHandlers(handlers)
  {
    var simFactory := BuildSimConstants();
    var shapeFactory := BuildSimShape();
    var simEnums := EnumInsertHandler(SimEnumEntries);
    var renderEnums := EnumInsertHandler(RenderEnumEntries);
    var dispatchSizes := EnumInsertHandler(DispatchSizeEntries);
    var simText := simFactory.GetShaderText();
    var shapeText := shapeFactory.GetShaderText();
    published := handlers["SimEnums" := simEnums]["RenderEnums" := renderEnums]["DispatchSizes" := dispatchSizes]
                         [simFactory.name := simText][shapeFactory.name := shapeText];
    sim := new Simulator(simFactory, shapeFactory);
  }

  // ---------------------------------------------------------------------
  // The bucket system
  // ---------------------------------------------------------------------

  /**
   * The sizes `constructBukkitSystem` allocates for a grid: a count per
   * bucket (twice), ten four-integer thread records per bucket, an integer
   * per particle and a start index per bucket, in bytes. The dispatch,
   * blank-dispatch and allocator buffers are four integers each.
   */
  datatype BukkitSystem = BukkitSystem(
    countX: nat, countY: nat, count: nat,
    countBytes: nat, threadDataBytes: nat, particleDataBytes: nat, indexStartBytes: nat)

  const IntBufferBytes: nat := 16
  const BukkitDispatchInitial: seq<int> := [0, 1, 1, 0]
  const BukkitAllocatorInitial: seq<int> := [0, 0, 0, 0]

  /** `Math.ceil(n / d)` for a whole number of cells. */
  function CeilDiv(n: nat, d: nat): (q: nat)
    requires d > 0
    ensures q * d >= n && (q == 0 || (q - 1) * d < n)
  {
    Gpu.DivUpIsCeiling(n, d);
    Gpu.DivUp(n, d)
  }

  function ConstructBukkitSystem(gridSizeX: nat, gridSizeY: nat, maxParticleCount: nat): (b: BukkitSystem)
    ensures b.countX * BukkitSize >= gridSizeX && (b.countX == 0 || (b.countX - 1) * BukkitSize < gridSizeX)
    ensures b.countY * BukkitSize >= gridSizeY && (b.countY == 0 || (b.countY - 1) * BukkitSize < gridSizeY)
    ensures b.count == b.countX * b.countY
    ensures b.countBytes == 4 * b.count && b.indexStartBytes == 4 * b.count
    ensures b.threadDataBytes == 10 * 4 * 4 * b.count && b.particleDataBytes == 4 * maxParticleCount
  {
    var countX := CeilDiv(gridSizeX, BukkitSize);
    var countY := CeilDiv(gridSizeY, BukkitSize);
    BukkitSystem(countX, countY, countX * countY,
                 countX * countY * 4, 10 * countX * countY * 4 * 4, maxParticleCount * 4, countX * countY * 4)
  }

  /** Every grid cell falls in a bucket: cell (x, y) lies in bucket (x / 6, y / 6), which exists. */
  lemma BukkitsCoverGrid(gridSizeX: nat, gridSizeY: nat, maxParticleCount: nat, x: nat, y: nat)
    requires x < gridSizeX && y < gridSizeY
    ensures var b := ConstructBukkitSystem(gridSizeX, gridSizeY, maxParticleCount);
      x / BukkitSize < b.countX && y / BukkitSize < b.countY
      && (y / BukkitSize) * b.countX + x / BukkitSize < b.count
  {
    var b := ConstructBukkitSystem(gridSizeX, gridSizeY, maxParticleCount);
    var bx, bukkitY := x / BukkitSize, y / BukkitSize;
    assert bx * BukkitSize <= x;
    assert bukkitY * BukkitSize <= y;
    assert (bukkitY + 1) * b.countX == bukkitY * b.countX + b.countX;
    calc {
      bukkitY * b.countX + bx;
    <  bukkitY * b.countX + b.countX;
    == (bukkitY + 1) * b.countX;
    <= { MulMonotone(bukkitY + 1, b.countY, b.countX); } b.countY * b.countX;
    }
  }

  lemma MulMonotone(a: nat, b: nat, c: nat)
    requires a <= b
    ensures a * c <= b * c
  {
  }

  // ---------------------------------------------------------------------
  // The shape buffer
  // ---------------------------------------------------------------------

  /** The `SimConstants` fields sit back to back from word 0. */
  lemma ConstantsLayout()
    ensures IsLayout(SimConstantsLayout) && End(SimConstantsLayout) == 27
  {
    ConstantsHeadLayout();
    BackToBackAfter(ConstantsGrid + ConstantsMaterial, ConstantsFrame);
  }

  lemma ConstantsHeadLayout()
    ensures IsLayout(ConstantsGrid + ConstantsMaterial) && End(ConstantsGrid + ConstantsMaterial) == 17
  {
    BackToBack(ConstantsGrid);
    BackToBackAfter(ConstantsGrid, ConstantsMaterial);
  }

  /** The `SimShape` fields sit back to back from word 0 and fill the record. */
  lemma ShapeLayout()
    ensures IsLayout(SimShapeLayout) && End(SimShapeLayout) == SimShapeWords
  {
    BackToBack(SimShapeLayout);
  }

  /**
   * The solver's record for a shape, in simulation cells with y pointing up;
   * shapes that are neither boxes nor circles get no record. A circle's
   * record also carries a `friction` key, which names no field.
   */
  function ShapeRecord(shape: Shape, simResDivisor: nat, gridSizeY: nat): (r: Option<map<string, Value>>)
    requires simResDivisor > 0
    ensures r.Some? <==> shape.shape == ShapeTypeCircle || shape.shape == ShapeTypeBox
  {
    var d := simResDivisor as real;
    var position := Vec([shape.position.x / d, gridSizeY as real - shape.position.y / d]);
    var rotation := Num(shape.rotation);
    var shapeType := Num(shape.shape as real);
    var functionality := Num(shape.functionality as real);
    var emitMaterial := Num(OrZero(shape.emitMaterial));
    var emissionRate := Num(OrZero(shape.emissionRate));
    var emissionSpeed := Num(OrZero(shape.emissionSpeed));
    // the fields both kinds of record set the same way
    var common := map["position" := position, "rotation" := rotation, "shapeType" := shapeType,
                      "functionality" := functionality, "emitMaterial" := emitMaterial,
                      "emissionRate" := emissionRate, "emissionSpeed" := emissionSpeed];
    if shape.shape == ShapeTypeCircle then
      Some(common["halfSize" := Vec([0.0, 0.0])]["radius" := Num(shape.radius / d)]
                 ["friction" := Num(OrZero(shape.friction))])
    else if shape.shape == ShapeTypeBox then
      Some(common["halfSize" := Vec([shape.halfSize.x / d, shape.halfSize.y / d])]["radius" := Num(0.0)])
    else None
  }

  /** The records pushed for `shapes`, in order. */
  function SolverShapes(shapes: seq<Shape>, simResDivisor: nat, gridSizeY: nat): seq<map<string, Value>>
    requires simResDivisor > 0
  {
    if |shapes| == 0 then []
    else
      var n := |shapes| - 1;
      SolverShapes(shapes[..n], simResDivisor, gridSizeY)
        + match ShapeRecord(shapes[n], simResDivisor, gridSizeY)
          case Some(rec) => [rec]
          case None => []
  }

  /** Shapes the editor can make are boxes and circles. */
  predicate KnownShapes(shapes: seq<Shape>) {
    forall i | 0 <= i < |shapes| :: shapes[i].shape == ShapeTypeCircle || shapes[i].shape == ShapeTypeBox
  }

  /** With boxes and circles only, record `i` belongs to shape `i`. */
  lemma {:induction false} SolverShapesAligned(shapes: seq<Shape>, simResDivisor: nat, gridSizeY: nat)
    requires simResDivisor > 0 && KnownShapes(shapes)
    ensures |SolverShapes(shapes, simResDivisor, gridSizeY)| == |shapes|
    ensures forall i | 0 <= i < |shapes| ::
      SolverShapes(shapes, simResDivisor, gridSizeY)[i] == ShapeRecord(shapes[i], simResDivisor, gridSizeY).value
    decreases |shapes|
  {
    if |shapes| > 0 {
      var n := |shapes| - 1;
      assert KnownShapes(shapes[..n]);
      SolverShapesAligned(shapes[..n], simResDivisor, gridSizeY);
    }
  }

  /** Every record's values have the shapes of the `SimShape` fields they name. */
  lemma ShapeRecordFits(shape: Shape, simResDivisor: nat, gridSizeY: nat)
    requires simResDivisor > 0 && ShapeRecord(shape, simResDivisor, gridSizeY).Some?
    ensures LayerFits(SimShapeLayout, ShapeRecord(shape, simResDivisor, gridSizeY).value)
  {
  }

  /** Every record sets every `SimShape` field except `padding`, which validation exempts. */
  lemma ShapeRecordComplete(shape: Shape, simResDivisor: nat, gridSizeY: nat)
    requires simResDivisor > 0 && ShapeRecord(shape, simResDivisor, gridSizeY).Some?
    ensures FirstUnset(Resolve(SimShapeLayout, [ShapeRecord(shape, simResDivisor, gridSizeY).value])) == -1
  {
    var rec := ShapeRecord(shape, simResDivisor, gridSizeY).value;
    ShapeFieldsSet(rec);
    SingleLayerComplete(SimShapeLayout, rec);
  }

  /** A record that sets the nine named `SimShape` fields leaves only the padding to the exemption. */
  lemma ShapeFieldsSet(rec: map<string, Value>)
    requires "position" in rec && rec["position"] != Undefined
    requires "halfSize" in rec && rec["halfSize"] != Undefined
    requires "radius" in rec && rec["radius"] != Undefined
    requires "rotation" in rec && rec["rotation"] != Undefined
    requires "functionality" in rec && rec["functionality"] != Undefined
    requires "shapeType" in rec && rec["shapeType"] != Undefined
    requires "emitMaterial" in rec && rec["emitMaterial"] != Undefined
    requires "emissionRate" in rec && rec["emissionRate"] != Undefined
    requires "emissionSpeed" in rec && rec["emissionSpeed"] != Undefined
    ensures forall i | 0 <= i < |SimShapeLayout| ::
      Contains(SimShapeLayout[i].name, "padding")
      || (SimShapeLayout[i].name in rec && rec[SimShapeLayout[i].name] != Undefined)
  {
    PaddingNamed();
  }

  lemma PaddingNamed()
    ensures Contains("padding", "padding")
  {
    assert OccursAt("padding", "padding", 0);
  }

  /** Records that fit the `SimShape` fields and leave none but padding unset. */
  predicate RecordsComplete(records: seq<map<string, Value>>) {
    && LayersFit(SimShapeLayout, records)
    && forall i | 0 <= i < |records| :: FirstUnset(Resolve(SimShapeLayout, [records[i]])) == -1
  }

  lemma RecordsCompleteAppend(records: seq<map<string, Value>>, rec: map<string, Value>)
    requires RecordsComplete(records)
    requires LayerFits(SimShapeLayout, rec) && FirstUnset(Resolve(SimShapeLayout, [rec])) == -1
    ensures RecordsComplete(records + [rec])
  {
    var all := records + [rec];
    forall i | 0 <= i < |all| ensures LayerFits(SimShapeLayout, all[i]) && FirstUnset(Resolve(SimShapeLayout, [all[i]])) == -1 {
      if i < |records| {
        assert all[i] == records[i];
      }
    }
  }

  lemma {:induction false} SolverShapesFit(shapes: seq<Shape>, simResDivisor: nat, gridSizeY: nat)
    requires simResDivisor > 0
    ensures RecordsComplete(SolverShapes(shapes, simResDivisor, gridSizeY))
    decreases |shapes|
  {
    if |shapes| > 0 {
      var n := |shapes| - 1;
      var rest := SolverShapes(shapes[..n], simResDivisor, gridSizeY);
      SolverShapesFit(shapes[..n], simResDivisor, gridSizeY);
      var rec := ShapeRecord(shapes[n], simResDivisor, gridSizeY);
      if rec.Some? {
        ShapeRecordFits(shapes[n], simResDivisor, gridSizeY);
        ShapeRecordComplete(shapes[n], simResDivisor, gridSizeY);
        RecordsCompleteAppend(rest, rec.value);
        assert SolverShapes(shapes, simResDivisor, gridSizeY) == rest + [rec.value];
      } else {
        assert SolverShapes(shapes, simResDivisor, gridSizeY) == rest;
      }
    }
  }

  /** The storage buffer of a scene's shapes: the solver records packed one after another. */
  function ShapeBuffer(shapes: seq<Shape>, simResDivisor: nat, gridSizeY: nat): (r: Result<seq<Word>, LayoutError>)
    requires simResDivisor > 0
    ensures r.Ok?
  {
    ShapeBufferPacks(shapes, simResDivisor, gridSizeY);
    PackRecords(SimShapeLayout, SolverShapes(shapes, simResDivisor, gridSizeY), SimShapeWords)
  }

  /** The shape buffer never fails validation: every field but `padding` is set by every record. */
  lemma ShapeBufferPacks(shapes: seq<Shape>, simResDivisor: nat, gridSizeY: nat)
    requires simResDivisor > 0
    ensures IsLayout(SimShapeLayout) && LayersFit(SimShapeLayout, SolverShapes(shapes, simResDivisor, gridSizeY))
    ensures PackRecords(SimShapeLayout, SolverShapes(shapes, simResDivisor, gridSizeY), SimShapeWords).Ok?
  {
    ShapeLayout();
    SolverShapesFit(shapes, simResDivisor, gridSizeY);
    PackRecordsFails(SimShapeLayout, SolverShapes(shapes, simResDivisor, gridSizeY), SimShapeWords);
  }

  /** A record's position is the shape's, in cells, with y measured up from the bottom of the grid. */
  lemma ShapeRecordPosition(shape: Shape, simResDivisor: nat, gridSizeY: nat)
    requires simResDivisor > 0 && ShapeRecord(shape, simResDivisor, gridSizeY).Some?
    ensures var rec := ShapeRecord(shape, simResDivisor, gridSizeY).value;
      && "position" in rec
      && rec["position"] == Vec([shape.position.x / simResDivisor as real,
                                 gridSizeY as real - shape.position.y / simResDivisor as real])
      && "shapeType" in rec && rec["shapeType"] == Num(shape.shape as real)
      && "padding" !in rec
  {
  }

  /** A circle keeps its radius in cells and no half size; a box keeps its half size in cells and radius 0. */
  lemma ShapeRecordExtent(shape: Shape, simResDivisor: nat, gridSizeY: nat)
    requires simResDivisor > 0 && ShapeRecord(shape, simResDivisor, gridSizeY).Some?
    ensures var rec, d := ShapeRecord(shape, simResDivisor, gridSizeY).value, simResDivisor as real;
      && "radius" in rec && "halfSize" in rec
      && rec["radius"] == Num(if shape.shape == ShapeTypeCircle then shape.radius / d else 0.0)
      && rec["halfSize"] == (if shape.shape == ShapeTypeCircle then Vec([0.0, 0.0])
                             else Vec([shape.halfSize.x / d, shape.halfSize.y / d]))
  {
  }

  /** The position and type words of one shape's record: the position in cells with y flipped, and the shape type. */
  lemma ShapePlacementWords(shape: Shape, simResDivisor: nat, gridSizeY: nat)
    requires simResDivisor > 0 && ShapeRecord(shape, simResDivisor, gridSizeY).Some?
    ensures var r := Resolve(SimShapeLayout, [ShapeRecord(shape, simResDivisor, gridSizeY).value]);
      var d := simResDivisor as real;
      && IsLayout(r)
      && WordAt(r, 0) == FloatWord(shape.position.x / d)
      && WordAt(r, 1) == FloatWord(gridSizeY as real - shape.position.y / d)
      && WordAt(r, 7) == FloatWord(shape.shape as real)
  {
    var rec := ShapeRecord(shape, simResDivisor, gridSizeY).value;
    ShapeLayout();
    ShapeRecordFits(shape, simResDivisor, gridSizeY);
    ShapeRecordPosition(shape, simResDivisor, gridSizeY);
    LastBindingSingle(rec, "position");
    LastBindingSingle(rec, "shapeType");
    ResolvedWord(SimShapeLayout, [rec], 0, 0);
    ResolvedWord(SimShapeLayout, [rec], 0, 1);
    ResolvedWord(SimShapeLayout, [rec], 5, 0);
  }

  /** The radius word of one shape's record (0 for a box), and the padding word, which stays zero. */
  lemma ShapeExtentWords(shape: Shape, simResDivisor: nat, gridSizeY: nat)
    requires simResDivisor > 0 && ShapeRecord(shape, simResDivisor, gridSizeY).Some?
    ensures var r := Resolve(SimShapeLayout, [ShapeRecord(shape, simResDivisor, gridSizeY).value]);
      var d := simResDivisor as real;
      && IsLayout(r)
      && WordAt(r, 4) == FloatWord(if shape.shape == ShapeTypeCircle then shape.radius / d else 0.0)
      && WordAt(r, 11) == Zero
  {
    var rec := ShapeRecord(shape, simResDivisor, gridSizeY).value;
    ShapeLayout();
    ShapeRecordFits(shape, simResDivisor, gridSizeY);
    ShapeRecordPosition(shape, simResDivisor, gridSizeY);
    ShapeRecordExtent(shape, simResDivisor, gridSizeY);
    LastBindingSingle(rec, "radius");
    LastBindingSingle(rec, "padding");
    ResolvedWord(SimShapeLayout, [rec], 2, 0);
    ResolvedWord(SimShapeLayout, [rec], 9, 0);
  }

  /** Word `k` of record `i` of the shape buffer, for editor shapes, is word `k` of shape `i`'s own record. */
  lemma ShapeBufferRecord(shapes: seq<Shape>, simResDivisor: nat, gridSizeY: nat, i: nat, k: nat)
    requires simResDivisor > 0 && KnownShapes(shapes) && i < |shapes| && k < SimShapeWords
    ensures IsLayout(Resolve(SimShapeLayout, [ShapeRecord(shapes[i], simResDivisor, gridSizeY).value]))
    ensures var ws := ShapeBuffer(shapes, simResDivisor, gridSizeY).value;
      && Stride(i, SimShapeWords) + k < |ws|
      && ws[Stride(i, SimShapeWords) + k]
         == WordAt(Resolve(SimShapeLayout, [ShapeRecord(shapes[i], simResDivisor, gridSizeY).value]), k)
  {
    var records := SolverShapes(shapes, simResDivisor, gridSizeY);
    ShapeBufferPacks(shapes, simResDivisor, gridSizeY);
    SolverShapesAligned(shapes, simResDivisor, gridSizeY);
    PackRecordsStride(SimShapeLayout, records, SimShapeWords, i, k);
  }

  /**
   * Record `i` of the shape buffer, for editor shapes: words 0 and 1 hold
   * shape `i`'s position in cells with y flipped, word 4 its radius in
   * cells (0 for a box), word 7 its type, and the padding word 11 is zero.
   */
  lemma ShapeBufferWords(shapes: seq<Shape>, simResDivisor: nat, gridSizeY: nat, i: nat)
    requires simResDivisor > 0 && KnownShapes(shapes) && i < |shapes|
    ensures var ws := ShapeBuffer(shapes, simResDivisor, gridSizeY).value;
      var s, d, base := shapes[i], simResDivisor as real, Stride(i, SimShapeWords);
      && base + SimShapeWords <= |ws|
      && ws[base] == FloatWord(s.position.x / d)
      && ws[base + 1] == FloatWord(gridSizeY as real - s.position.y / d)
      && ws[base + 4] == FloatWord(if s.shape == ShapeTypeCircle then s.radius / d else 0.0)
      && ws[base + 7] == FloatWord(s.shape as real)
      && ws[base + 11] == Zero
  {
    ShapeBufferPlacement(shapes, simResDivisor, gridSizeY, i);
    ShapeBufferExtent(shapes, simResDivisor, gridSizeY, i);
  }

  lemma ShapeBufferPlacement(shapes: seq<Shape>, simResDivisor: nat, gridSizeY: nat, i: nat)
    requires simResDivisor > 0 && KnownShapes(shapes) && i < |shapes|
    ensures var ws := ShapeBuffer(shapes, simResDivisor, gridSizeY).value;
      var s, d, base := shapes[i], simResDivisor as real, Stride(i, SimShapeWords);
      && base + 1 < |ws|
      && ws[base] == FloatWord(s.position.x / d)
      && ws[base + 1] == FloatWord(gridSizeY as real - s.position.y / d)
  {
    ShapePlacementWords(shapes[i], simResDivisor, gridSizeY);
    ShapeBufferRecord(shapes, simResDivisor, gridSizeY, i, 0);
    ShapeBufferRecord(shapes, simResDivisor, gridSizeY, i, 1);
  }

  lemma ShapeBufferExtent(shapes: seq<Shape>, simResDivisor: nat, gridSizeY: nat, i: nat)
    requires simResDivisor > 0 && KnownShapes(shapes) && i < |shapes|
    ensures var ws := ShapeBuffer(shapes, simResDivisor, gridSizeY).value;
      var s, d, base := shapes[i], simResDivisor as real, Stride(i, SimShapeWords);
      && base + 11 < |ws|
      && ws[base + 4] == FloatWord(if s.shape == ShapeTypeCircle then s.radius / d else 0.0)
      && ws[base + 7] == FloatWord(s.shape as real)
      && ws[base + 11] == Zero
  {
    ShapeExtentWords(shapes[i], simResDivisor, gridSizeY);
    ShapePlacementWords(shapes[i], simResDivisor, gridSizeY);
    ShapeBufferRecord(shapes, simResDivisor, gridSizeY, i, 4);
    ShapeBufferRecord(shapes, simResDivisor, gridSizeY, i, 7);
    ShapeBufferRecord(shapes, simResDivisor, gridSizeY, i, 11);
  }

  // ---------------------------------------------------------------------
  // The constants buffer
  // ---------------------------------------------------------------------

  /**
   * What `constructSimUniformBuffer` reads: the inputs object, whose own
   * properties form the first layer, and the inputs it computes with. The
   * mouse position and velocity arrive already in cells and cells per second.
   */
  datatype UniformInputs = UniformInputs(
    fields: map<string, Value>,
    simRate: real,
    isMouseDown: bool,
    gridSizeX: nat,
    mousePosition: Vec2,
    mouseVelocity: Vec2,
    fixedPointMultiplierExponent: nat,
    particlesPerCellAxis: nat,
    rhoZeroMultiplier: real,
    mouseRadius: real,
    simResDivisor: nat,
    shapeCount: nat,
    iterationCount: nat)

  predicate UniformInputsValid(u: UniformInputs) {
    u.simRate > 0.0 && u.simResDivisor > 0 && LayerFits(SimConstantsLayout, u.fields)
  }

  /** The mouse pushes or pulls only while a button is held, harder on wider grids and at lower rates. */
  function MouseActivation(isMouseDown: bool, simRate: real, gridSizeX: nat): (a: real)
    requires simRate > 0.0
    ensures !isMouseDown ==> a == 0.0
    ensures isMouseDown ==> a * simRate * 128.0 == 500.0 * gridSizeX as real
  {
    if isMouseDown then 500.0 / simRate * (gridSizeX as real / 128.0) else 0.0
  }

  /** The keys `constructSimUniformBuffer` sets directly, whatever the inputs hold. */
  const DirectKeys: set<string> := {
    "deltaTime", "mouseActivation", "mousePosition", "mouseVelocity", "fixedPointMultiplier", "rho_zero",
    "mouseRadius", "shapeCount", "simFrame", "bukkitCount", "bukkitCountX", "bukkitCountY", "iteration",
    "iterationCount"}

  /** The vector `constructSimUniformBuffer` sets directly: the mouse position or the mouse velocity. */
  function DirectVector(u: UniformInputs, key: string): (xs: seq<real>)
    ensures |xs| == 2
  {
    if key == "mousePosition" then [u.mousePosition.x, u.mousePosition.y]
    else [u.mouseVelocity.x, u.mouseVelocity.y]
  }

  /** The number `constructSimUniformBuffer` sets directly for a scalar key; `simFrame` is the substep index, `iteration` the solver iteration. */
  function DirectNumber(u: UniformInputs, b: BukkitSystem, simFrame: nat, iteration: nat, key: string): real
    requires u.simRate > 0.0 && u.simResDivisor > 0
  {
    if key == "deltaTime" then 1.0 / u.simRate
    else if key == "mouseActivation" then MouseActivation(u.isMouseDown, u.simRate, u.gridSizeX)
    else if key == "fixedPointMultiplier" then Pow10(u.fixedPointMultiplierExponent) as real
    else if key == "rho_zero" then (u.particlesPerCellAxis * u.particlesPerCellAxis) as real * u.rhoZeroMultiplier
    else if key == "mouseRadius" then u.mouseRadius / u.simResDivisor as real
    else if key == "shapeCount" then u.shapeCount as real
    else if key == "simFrame" then simFrame as real
    else if key == "bukkitCount" then b.count as real
    else if key == "bukkitCountX" then b.countX as real
    else if key == "bukkitCountY" then b.countY as real
    else if key == "iteration" then iteration as real
    else u.iterationCount as real
  }

  /** The value set directly for one key: a two-element vector for the mouse, a number otherwise. */
  function DirectValue(u: UniformInputs, b: BukkitSystem, simFrame: nat, iteration: nat, key: string): Value
    requires u.simRate > 0.0 && u.simResDivisor > 0
  {
    if key == "mousePosition" || key == "mouseVelocity" then Vec(DirectVector(u, key))
    else Num(DirectNumber(u, b, simFrame, iteration, key))
  }

  /** The values set directly for one dispatch, one for each of `DirectKeys`. */
  function DirectValues(u: UniformInputs, b: BukkitSystem, simFrame: nat, iteration: nat): map<string, Value>
    requires u.simRate > 0.0 && u.simResDivisor > 0
  {
    map key | key in DirectKeys :: DirectValue(u, b, simFrame, iteration, key)
  }

  /** Exactly the keys of `DirectKeys` are set directly, and none of them to `undefined`. */
  lemma DirectValuesSet(u: UniformInputs, b: BukkitSystem, simFrame: nat, iteration: nat)
    requires u.simRate > 0.0 && u.simResDivisor > 0
    ensures var m := DirectValues(u, b, simFrame, iteration);
            && m.Keys == DirectKeys
            && forall key | key in m :: m[key] == DirectValue(u, b, simFrame, iteration, key) && m[key] != Undefined
  {
  }

  /** The layers in order: the inputs, the direct values, and the GPU context, which names no field. */
  function UniformLayers(u: UniformInputs, b: BukkitSystem, simFrame: nat, iteration: nat): seq<map<string, Value>>
    requires u.simRate > 0.0 && u.simResDivisor > 0
  {
    [u.fields, DirectValues(u, b, simFrame, iteration), map[]]
  }

  /** The value a field ends up with: the direct value if there is one, else the input's, else `undefined`. */
  lemma UniformBinding(u: UniformInputs, b: BukkitSystem, simFrame: nat, iteration: nat, key: string)
    requires u.simRate > 0.0 && u.simResDivisor > 0
    ensures LastBinding(UniformLayers(u, b, simFrame, iteration), key) ==
      var direct := DirectValues(u, b, simFrame, iteration);
      if key in direct then direct[key] else if key in u.fields then u.fields[key] else Undefined
  {
    LastBindingThree(u.fields, DirectValues(u, b, simFrame, iteration), map[], key);
  }

  /** The two mouse fields of `SimConstants` are `vec2f`; every other field is a scalar, except `gridSize`. */
  lemma ConstantsTypes()
    ensures forall i | 0 <= i < |SimConstantsLayout| :: ScalarOrMouse(SimConstantsLayout[i])
  {
    assert forall i | 0 <= i < |ConstantsGrid| :: ScalarOrMouse(ConstantsGrid[i]);
    assert forall i | 0 <= i < |ConstantsMaterial| :: ScalarOrMouse(ConstantsMaterial[i]);
    assert forall i | 0 <= i < |ConstantsFrame| :: ScalarOrMouse(ConstantsFrame[i]);
  }

  predicate ScalarOrMouse(e: Element) {
    if e.name == "mousePosition" || e.name == "mouseVelocity" then e.ty == Vec2f
    else e.ty == F32 || e.ty == U32 || e.name == "gridSize"
  }

  /** The direct values have the shapes of the fields they name. */
  lemma DirectLayerFits(u: UniformInputs, b: BukkitSystem, simFrame: nat, iteration: nat)
    requires u.simRate > 0.0 && u.simResDivisor > 0
    ensures LayerFits(SimConstantsLayout, DirectValues(u, b, simFrame, iteration))
  {
    var direct := DirectValues(u, b, simFrame, iteration);
    forall i | 0 <= i < |SimConstantsLayout| && SimConstantsLayout[i].name in direct
      ensures Fits(SimConstantsLayout[i].ty, direct[SimConstantsLayout[i].name])
    {
      DirectEntryFits(u, b, simFrame, iteration, i);
    }
  }

  lemma DirectEntryFits(u: UniformInputs, b: BukkitSystem, simFrame: nat, iteration: nat, i: nat)
    requires u.simRate > 0.0 && u.simResDivisor > 0
    requires i < |SimConstantsLayout| && SimConstantsLayout[i].name in DirectKeys
    ensures Fits(SimConstantsLayout[i].ty, DirectValues(u, b, simFrame, iteration)[SimConstantsLayout[i].name])
  {
    assert "gridSize" !in DirectKeys;
    ConstantsTypes();
    var e := SimConstantsLayout[i];
    assert ScalarOrMouse(e);
  }

  /** So the layers fit the layout whenever the inputs do. */
  lemma DirectFits(u: UniformInputs, b: BukkitSystem, simFrame: nat, iteration: nat)
    requires UniformInputsValid(u)
    ensures LayersFit(SimConstantsLayout, UniformLayers(u, b, simFrame, iteration))
  {
    DirectLayerFits(u, b, simFrame, iteration);
    var layers := UniformLayers(u, b, simFrame, iteration);
    assert layers[0] == u.fields && layers[1] == DirectValues(u, b, simFrame, iteration) && layers[2] == map[];
  }

  /** The `SimConstants` buffer for one dispatch: the layout resolved against the layers and packed into 32 words. */
  function SimUniform(u: UniformInputs, b: BukkitSystem, simFrame: nat, iteration: nat): Result<seq<Word>, LayoutError>
    requires UniformInputsValid(u)
  {
    ConstantsLayout();
    DirectFits(u, b, simFrame, iteration);
    ResolveKeepsLayout(SimConstantsLayout, UniformLayers(u, b, simFrame, iteration));
    Pack(Resolve(SimConstantsLayout, UniformLayers(u, b, simFrame, iteration)), SimConstantsWords)
  }

  /** A field needs nothing from the inputs when it is set directly or is padding; otherwise they must give it a value. */
  predicate Supplied(name: string, fields: map<string, Value>) {
    name in DirectKeys || Contains(name, "padding") || (name in fields && fields[name] != Undefined)
  }

  /**
   * The inputs give a value to every field of `SimConstantsLayout` that is
   * neither set directly nor exempt from validation as padding.
   */
  predicate InputsComplete(fields: map<string, Value>) {
    forall i | 0 <= i < |SimConstantsLayout| :: Supplied(SimConstantsLayout[i].name, fields)
  }

  /** The value a field of `SimConstants` ends up with, for one dispatch. */
  lemma ConstantsBinding(u: UniformInputs, b: BukkitSystem, simFrame: nat, iteration: nat, i: nat)
    requires UniformInputsValid(u) && i < |SimConstantsLayout|
    ensures var name := SimConstantsLayout[i].name;
      LastBinding(UniformLayers(u, b, simFrame, iteration), name) ==
        if name in DirectKeys then DirectValue(u, b, simFrame, iteration, name)
        else if name in u.fields then u.fields[name] else Undefined
  {
    UniformBinding(u, b, simFrame, iteration, SimConstantsLayout[i].name);
  }

  /** Building the buffer throws exactly when the inputs leave a field without a value that is neither set directly nor padding. */
  lemma SimUniformOk(u: UniformInputs, b: BukkitSystem, simFrame: nat, iteration: nat)
    requires UniformInputsValid(u)
    ensures SimUniform(u, b, simFrame, iteration).Ok? <==> InputsComplete(u.fields)
  {
    var layers := UniformLayers(u, b, simFrame, iteration);
    if InputsComplete(u.fields) {
      forall i | 0 <= i < |SimConstantsLayout|
        ensures Contains(SimConstantsLayout[i].name, "padding") || LastBinding(layers, SimConstantsLayout[i].name) != Undefined
      {
        ConstantsBinding(u, b, simFrame, iteration, i);
      }
      LayersComplete(SimConstantsLayout, layers);
    } else {
      var i :| 0 <= i < |SimConstantsLayout| && !Supplied(SimConstantsLayout[i].name, u.fields);
      ConstantsBinding(u, b, simFrame, iteration, i);
      LayersIncomplete(SimConstantsLayout, layers, i);
    }
  }

  /** The value field `name` takes for one dispatch: set directly, else from the inputs, else `undefined`. */
  function FieldValue(u: UniformInputs, b: BukkitSystem, simFrame: nat, iteration: nat, name: string): Value
    requires u.simRate > 0.0 && u.simResDivisor > 0
  {
    if name in DirectKeys then DirectValue(u, b, simFrame, iteration, name)
    else if name in u.fields then u.fields[name] else Undefined
  }

  /**
   * Word `offset + j` of field `i` of a built `SimConstants` buffer: the
   * encoding of the field's value (direct values win over the inputs).
   */
  lemma SimUniformWord(u: UniformInputs, b: BukkitSystem, simFrame: nat, iteration: nat, i: nat, j: nat)
    requires UniformInputsValid(u) && SimUniform(u, b, simFrame, iteration).Ok?
    requires i < |SimConstantsLayout| && j < SimConstantsLayout[i].slotCount
    ensures Fits(SimConstantsLayout[i].ty, FieldValue(u, b, simFrame, iteration, SimConstantsLayout[i].name))
    ensures SimConstantsLayout[i].slotCount == SlotCount(SimConstantsLayout[i].ty)
    ensures SimConstantsLayout[i].offset + j < |SimUniform(u, b, simFrame, iteration).value| == SimConstantsWords
    ensures SimUniform(u, b, simFrame, iteration).value[SimConstantsLayout[i].offset + j] ==
      var v := FieldValue(u, b, simFrame, iteration, SimConstantsLayout[i].name);
      if v == Undefined then Zero else Encode(SimConstantsLayout[i].ty, v)[j]
  {
    var layers := UniformLayers(u, b, simFrame, iteration);
    ConstantsLayout();
    DirectFits(u, b, simFrame, iteration);
    ConstantsBinding(u, b, simFrame, iteration, i);
    ResolvedWord(SimConstantsLayout, layers, i, j);
    FieldWithinEnd(SimConstantsLayout, i);
    ResolveKeepsLayout(SimConstantsLayout, layers);
    PackWord(Resolve(SimConstantsLayout, layers), SimConstantsWords, SimConstantsLayout[i].offset + j);
  }

  /** The time step word is `1 / simRate`, whatever the inputs say. */
  lemma SimUniformDeltaTime(u: UniformInputs, b: BukkitSystem, simFrame: nat, iteration: nat)
    requires UniformInputsValid(u) && SimUniform(u, b, simFrame, iteration).Ok?
    ensures |SimUniform(u, b, simFrame, iteration).value| == SimConstantsWords
    ensures SimUniform(u, b, simFrame, iteration).value[2] == FloatWord(1.0 / u.simRate)
  {
    assert SimConstantsLayout[1] == Element("deltaTime", F32, Undefined, 2, 1);
    SimUniformWord(u, b, simFrame, iteration, 1, 0);
  }

  /** The mouse words carry the converted mouse position, overriding the raw one among the inputs. */
  lemma SimUniformMouse(u: UniformInputs, b: BukkitSystem, simFrame: nat, iteration: nat)
    requires UniformInputsValid(u) && SimUniform(u, b, simFrame, iteration).Ok?
    ensures |SimUniform(u, b, simFrame, iteration).value| == SimConstantsWords
    ensures SimUniform(u, b, simFrame, iteration).value[4] == FloatWord(u.mousePosition.x)
    ensures SimUniform(u, b, simFrame, iteration).value[5] == FloatWord(u.mousePosition.y)
  {
    assert SimConstantsLayout[3] == Element("mousePosition", Vec2f, Undefined, 4, 2);
    SimUniformWord(u, b, simFrame, iteration, 3, 0);
    SimUniformWord(u, b, simFrame, iteration, 3, 1);
  }

  /** The frame and iteration counters are stored as the low 32 bits of the substep index and the iteration. */
  lemma SimUniformCounters(u: UniformInputs, b: BukkitSystem, simFrame: nat, iteration: nat)
    requires UniformInputsValid(u) && SimUniform(u, b, simFrame, iteration).Ok?
    ensures |SimUniform(u, b, simFrame, iteration).value| == SimConstantsWords
    ensures SimUniform(u, b, simFrame, iteration).value[21] == IntBits(simFrame % TwoTo32)
    ensures SimUniform(u, b, simFrame, iteration).value[25] == IntBits(iteration % TwoTo32)
  {
    assert SimConstantsLayout[18] == Element("simFrame", U32, Undefined, 21, 1);
    assert SimConstantsLayout[22] == Element("iteration", U32, Undefined, 25, 1);
    SimUniformWord(u, b, simFrame, iteration, 18, 0);
    SimUniformWord(u, b, simFrame, iteration, 22, 0);
    Int32BitsNat(simFrame);
    Int32BitsNat(iteration);
  }

  /** The five words of the round-up to 16 bytes after `iterationCount` stay zero. */
  lemma SimUniformTail(u: UniformInputs, b: BukkitSystem, simFrame: nat, iteration: nat, k: nat)
    requires UniformInputsValid(u) && SimUniform(u, b, simFrame, iteration).Ok?
    requires 27 <= k < SimConstantsWords
    ensures |SimUniform(u, b, simFrame, iteration).value| == SimConstantsWords
    ensures SimUniform(u, b, simFrame, iteration).value[k] == Zero
  {
    var layers := UniformLayers(u, b, simFrame, iteration);
    ConstantsLayout();
    DirectFits(u, b, simFrame, iteration);
    ResolveKeepsLayout(SimConstantsLayout, layers);
    WordAtBeyondEnd(Resolve(SimConstantsLayout, layers), k);
    PackWord(Resolve(SimConstantsLayout, layers), SimConstantsWords, k);
  }

  // ---------------------------------------------------------------------
  // The commands of one frame
  // ---------------------------------------------------------------------

  // Buffers are named by their labels; the bucket buffers and the shape
  // buffer are rebuilt every frame under the same labels.
  const ParticleBuffer: string := "particles"
  const FreeIndicesBuffer: string := "freeIndices"
  const ParticleCountBuffer: string := "particleCountBuffer"
  const SimDispatchBuffer: string := "particleSimDispatchBuffer"
  const RenderDispatchBuffer: string := "particleRenderDispatchBuffer"
  const GridBuffers: seq<string> := ["gridBuffer0", "gridBuffer1", "gridBuffer2"]
  const BukkitCountBuffer: string := "bukkitParticleCountBuffer"
  const BukkitCountBuffer2: string := "bukkitParticleCountBuffer2"
  const BukkitThreadData: string := "bukkitParticleThreadData"
  const BukkitParticleData: string := "bukkitParticleData"
  const BukkitDispatch: string := "bukkitParticleDispatchBuffer"
  const BlankDispatch: string := "blankDispatchBuffer"
  const BukkitAllocator: string := "bukkitParticleAllocator"
  const BukkitIndexStart: string := "bukkitIndexStart"
  const ShapeBufferName: string := "SimShape"

  /** The compute shaders the simulation dispatches, by the names of their pipelines. */
  const EmitShader: string := "particleEmit"
  const IndirectArgsShader: string := "setIndirectArgs"
  const BukkitCountShader: string := "bukkitCount"
  const BukkitAllocateShader: string := "bukkitAllocate"
  const BukkitInsertShader: string := "bukkitInsert"
  const G2P2GShader: string := "g2p2g"

  /** The label prefix of the uniform buffers built in a frame. */
  const UniformLabel: string := "SimConstants#"

  /** The `k`-th uniform buffer built in a frame; every one is labelled `SimConstants`, the number tells them apart. */
  function UniformBuffer(k: nat): string {
    UniformLabel + NatToString(k)
  }

  /** A command with its timestamp indices dropped: what a frame records whether or not timestamps are on. */
  function Untimed(c: Gpu.Command): Gpu.Command {
    if c.ComputePass? then c.(firstTimeStamp := None) else c
  }

  function UntimedAll(cs: seq<Gpu.Command>): (r: seq<Gpu.Command>)
    ensures |r| == |cs| && forall i | 0 <= i < |cs| :: r[i] == Untimed(cs[i])
  {
    seq(|cs|, i requires 0 <= i < |cs| => Untimed(cs[i]))
  }

  lemma UntimedAppend(a: seq<Gpu.Command>, b: seq<Gpu.Command>)
    ensures UntimedAll(a + b) == UntimedAll(a) + UntimedAll(b)
  {
    assert UntimedAll(a + b) == UntimedAll(a) + UntimedAll(b);
  }

  /** A compute pass binding the named buffers in order as its single group. */
  function Dispatched(shader: string, names: seq<string>, groups: Gpu.GroupCount): Gpu.Command {
    Gpu.ComputePass(shader, [Gpu.Bindings(names)], Gpu.Launch(groups), None)
  }

  /** `doEmission`: emit over the grid, then turn the particle count into indirect arguments. */
  function EmissionPasses(uniform: string, gridSizeX: nat, gridSizeY: nat): seq<Gpu.Command> {
    [Dispatched(EmitShader, [uniform, ParticleCountBuffer, ParticleBuffer, ShapeBufferName, FreeIndicesBuffer],
          Gpu.Counts(Gpu.DivUp(gridSizeX, GridDispatchSize), Gpu.DivUp(gridSizeY, GridDispatchSize), 1)),
     Dispatched(IndirectArgsShader, [ParticleCountBuffer, SimDispatchBuffer, RenderDispatchBuffer], Gpu.Counts(1, 1, 1))]
  }

  /** The start of `bukkitizeParticles`: the bucket buffers cleared and the bucket dispatch reset. */
  const BukkitResets: seq<Gpu.Command> :=
    [Gpu.ClearBuffer(BukkitCountBuffer), Gpu.ClearBuffer(BukkitCountBuffer2), Gpu.ClearBuffer(BukkitThreadData),
     Gpu.ClearBuffer(BukkitParticleData), Gpu.ClearBuffer(BukkitAllocator),
     Gpu.CopyBuffer(BlankDispatch, BukkitDispatch, IntBufferBytes)]

  /** `bukkitizeParticles`: clear the bucket buffers, reset the dispatch, then count, allocate and insert. */
  function BukkitizePasses(uniform: string, b: BukkitSystem): seq<Gpu.Command> {
    BukkitResets +
    [Dispatched(BukkitCountShader, [uniform, ParticleCountBuffer, ParticleBuffer, BukkitCountBuffer],
          Gpu.IndirectArgs(SimDispatchBuffer)),
     Dispatched(BukkitAllocateShader, [uniform, BukkitCountBuffer, BukkitDispatch, BukkitThreadData, BukkitAllocator, BukkitIndexStart],
          Gpu.Counts(Gpu.DivUp(b.countX, GridDispatchSize), Gpu.DivUp(b.countY, GridDispatchSize), 1)),
     Dispatched(BukkitInsertShader, [uniform, ParticleCountBuffer, BukkitCountBuffer2, ParticleBuffer, BukkitParticleData, BukkitIndexStart],
          Gpu.IndirectArgs(SimDispatchBuffer))]
  }

  /**
   * The grid the frame's `k`-th particle-to-grid pass reads: the index
   * starts at 0 each frame and steps round the three grids.
   */
  function GridSlot(k: nat): (r: nat)
    ensures r < 3
  {
    if k == 0 then 0 else if GridSlot(k - 1) == 2 then 0 else GridSlot(k - 1) + 1
  }

  /** The rotating index is the pass number modulo 3. */
  lemma {:induction false} GridSlotIsRemainder(k: nat)
    ensures GridSlot(k) == k % 3
  {
    if k > 0 {
      GridSlotIsRemainder(k - 1);
    }
  }

  /**
   * The buffers of the frame's `k`-th particle-to-grid pass: it reads the
   * grid of its slot and writes the grids that the next two passes read.
   */
  function G2P2GBindings(uniform: string, k: nat): seq<string> {
    [uniform, ParticleBuffer, GridBuffers[GridSlot(k)], GridBuffers[GridSlot(k + 1)], GridBuffers[GridSlot(k + 2)],
     BukkitThreadData, BukkitParticleData, ShapeBufferName, FreeIndicesBuffer]
  }

  function G2P2GPass(uniform: string, k: nat): Gpu.Command {
    Dispatched(G2P2GShader, G2P2GBindings(uniform, k), Gpu.IndirectArgs(BukkitDispatch))
  }

  /**
   * The first `m` solver iterations of a substep whose uniform buffers are
   * numbered from `uniformBase` and whose first pass is the frame's
   * `gridBase`-th.
   */
  function IterationPasses(uniformBase: nat, gridBase: nat, m: nat): (r: seq<Gpu.Command>)
    ensures |r| == m
  {
    if m == 0 then []
    else IterationPasses(uniformBase, gridBase, m - 1) + [G2P2GPass(UniformBuffer(uniformBase + m), gridBase + m - 1)]
  }

  /**
   * One substep, pass by pass: emission and bucketing with its first
   * uniform buffer, then `n` iterations.
   */
  function SubstepPasses(uniformBase: nat, gridBase: nat, n: nat, gridSizeX: nat, gridSizeY: nat, b: BukkitSystem)
    : seq<Gpu.Command>
  {
    var uniform := UniformBuffer(uniformBase);
    seq(11 + n, p requires 0 <= p < 11 + n =>
      if p < 2 then EmissionPasses(uniform, gridSizeX, gridSizeY)[p]
      else if p < 11 then BukkitizePasses(uniform, b)[p - 2]
      else IterationPasses(uniformBase, gridBase, n)[p - 11])
  }

  /** A substep records `doEmission`'s passes, then `bukkitizeParticles`'s, then its iterations'. */
  lemma SubstepPassesSplit(uniformBase: nat, gridBase: nat, n: nat, gridSizeX: nat, gridSizeY: nat, b: BukkitSystem)
    ensures SubstepPasses(uniformBase, gridBase, n, gridSizeX, gridSizeY, b)
            == EmissionPasses(UniformBuffer(uniformBase), gridSizeX, gridSizeY)
               + BukkitizePasses(UniformBuffer(uniformBase), b)
               + IterationPasses(uniformBase, gridBase, n)
  {
  }

  /** The first `count` substeps of a frame: substep `s` uses `n + 1` uniform buffers and `n` grid passes. */
  function SubstepsPasses(count: nat, n: nat, gridSizeX: nat, gridSizeY: nat, b: BukkitSystem): seq<Gpu.Command> {
    if count == 0 then []
    else SubstepsPasses(count - 1, n, gridSizeX, gridSizeY, b)
         + SubstepPasses(Stride(count - 1, n + 1), Stride(count - 1, n), n, gridSizeX, gridSizeY, b)
  }

  const GridClears: seq<Gpu.Command> :=
    [Gpu.ClearBuffer(GridBuffers[0]), Gpu.ClearBuffer(GridBuffers[1]), Gpu.ClearBuffer(GridBuffers[2])]

  /** The commands `update` records: the grids cleared once, then `count` substeps. */
  function FramePasses(count: nat, n: nat, gridSizeX: nat, gridSizeY: nat, b: BukkitSystem): seq<Gpu.Command> {
    GridClears + SubstepsPasses(count, n, gridSizeX, gridSizeY, b)
  }

  /** The uniform buffers of iterations `0 .. m-1` of one substep. */
  function IterationUniforms(u: UniformInputs, b: BukkitSystem, simFrame: nat, m: nat): seq<Result<seq<Word>, LayoutError>>
    requires UniformInputsValid(u)
  {
    seq(m, i requires 0 <= i < m => SimUniform(u, b, simFrame, i))
  }

  /** One more iteration adds its uniform buffer at the end. */
  lemma IterationUniformsAppend(u: UniformInputs, b: BukkitSystem, simFrame: nat, m: nat)
    requires UniformInputsValid(u)
    ensures IterationUniforms(u, b, simFrame, m + 1) == IterationUniforms(u, b, simFrame, m) + [SimUniform(u, b, simFrame, m)]
  {
    assert IterationUniforms(u, b, simFrame, m + 1)[..m] == IterationUniforms(u, b, simFrame, m);
  }

  /**
   * The uniform buffers of one substep: one for emission and bucketing,
   * built as for iteration 0, then one per iteration.
   */
  function SubstepUniforms(u: UniformInputs, b: BukkitSystem, simFrame: nat): seq<Result<seq<Word>, LayoutError>>
    requires UniformInputsValid(u)
  {
    seq(u.iterationCount + 1, i requires 0 <= i <= u.iterationCount => SimUniform(u, b, simFrame, if i == 0 then 0 else i - 1))
  }

  lemma SubstepUniformsSplit(u: UniformInputs, b: BukkitSystem, simFrame: nat)
    requires UniformInputsValid(u)
    ensures SubstepUniforms(u, b, simFrame)
            == [SimUniform(u, b, simFrame, 0)] + IterationUniforms(u, b, simFrame, u.iterationCount)
  {
    assert SubstepUniforms(u, b, simFrame)[1..] == IterationUniforms(u, b, simFrame, u.iterationCount);
  }

  /** The uniform buffers of a frame's `count` substeps, the first with substep index `start`. */
  function FrameUniforms(u: UniformInputs, b: BukkitSystem, start: nat, count: nat): (r: seq<Result<seq<Word>, LayoutError>>)
    requires UniformInputsValid(u)
    ensures |r| == Stride(count, u.iterationCount + 1)
  {
    if count == 0 then [] else FrameUniforms(u, b, start, count - 1) + SubstepUniforms(u, b, start + count - 1)
  }

  /** The substeps a frame runs: the regulator's count, none when it is negative. */
  function FrameSubsteps(c: Time.Clock, inputs: Time.TimeInputs): nat
    requires c.simFrameCountCap > 0 && inputs.simRate > 0.0
  {
    LoopCount(Time.Regulate(c, inputs).1)
  }

  /** How often `for (i = 0; i < count; ++i)` runs. */
  function LoopCount(count: int): nat {
    if count < 0 then 0 else count
  }

  /** Grid clears followed by the substeps make up the frame. */
  lemma FrameFollows(before: seq<Gpu.Command>, cleared: seq<Gpu.Command>, after: seq<Gpu.Command>,
                     count: nat, n: nat, gridSizeX: nat, gridSizeY: nat, b: BukkitSystem)
    requires UntimedAll(cleared) == UntimedAll(before) + GridClears
    requires UntimedAll(after) == UntimedAll(cleared) + SubstepsPasses(count, n, gridSizeX, gridSizeY, b)
    ensures UntimedAll(after) == UntimedAll(before) + FramePasses(count, n, gridSizeX, gridSizeY, b)
  {
  }

  /** Buffers bound through the rotating index `bufferIdx` are those of the frame's `k`-th pass. */
  lemma G2P2GRotation(uniform: string, k: nat, bufferIdx: nat, bindings: seq<string>)
    requires bufferIdx == GridSlot(k)
    requires bindings == [uniform, ParticleBuffer, GridBuffers[bufferIdx], GridBuffers[(bufferIdx + 1) % 3],
                          GridBuffers[(bufferIdx + 2) % 3], BukkitThreadData, BukkitParticleData, ShapeBufferName,
                          FreeIndicesBuffer]
    ensures bindings == G2P2GBindings(uniform, k)
    ensures (bufferIdx + 1) % 3 == GridSlot(k + 1)
  {
    assert GridSlot(k + 1) == (bufferIdx + 1) % 3;
    assert GridSlot(k + 2) == (bufferIdx + 2) % 3;
  }

  lemma IterationFollows(before: seq<Gpu.Command>, mid: seq<Gpu.Command>, after: seq<Gpu.Command>,
                         uniformBase: nat, gridBase: nat, m: nat)
    requires UntimedAll(mid) == UntimedAll(before) + IterationPasses(uniformBase, gridBase, m)
    requires UntimedAll(after) == UntimedAll(mid) + [G2P2GPass(UniformBuffer(uniformBase + m + 1), gridBase + m)]
    ensures UntimedAll(after) == UntimedAll(before) + IterationPasses(uniformBase, gridBase, m + 1)
  {
  }

  lemma SubstepFollows(before: seq<Gpu.Command>, emitted: seq<Gpu.Command>, bucketed: seq<Gpu.Command>,
                       after: seq<Gpu.Command>, uniformBase: nat, gridBase: nat, n: nat,
                       gridSizeX: nat, gridSizeY: nat, b: BukkitSystem)
    requires UntimedAll(emitted) == UntimedAll(before) + EmissionPasses(UniformBuffer(uniformBase), gridSizeX, gridSizeY)
    requires UntimedAll(bucketed) == UntimedAll(emitted) + BukkitizePasses(UniformBuffer(uniformBase), b)
    requires UntimedAll(after) == UntimedAll(bucketed) + IterationPasses(uniformBase, gridBase, n)
    ensures UntimedAll(after) == UntimedAll(before) + SubstepPasses(uniformBase, gridBase, n, gridSizeX, gridSizeY, b)
  {
    SubstepPassesSplit(uniformBase, gridBase, n, gridSizeX, gridSizeY, b);
  }

  /** After `s` substeps of `n` passes and one more, the rotating index is that of the next substep's first pass. */
  lemma FrameUniformsFollow(u: UniformInputs, b: BukkitSystem, start: nat, s: nat, simFrame: nat,
                            before: seq<Result<seq<Word>, LayoutError>>, step: seq<Result<seq<Word>, LayoutError>>)
    requires UniformInputsValid(u) && simFrame == start + s
    requires before == FrameUniforms(u, b, start, s) && step == SubstepUniforms(u, b, simFrame)
    ensures before + step == FrameUniforms(u, b, start, s + 1)
  {
  }

  lemma SubstepsFollow(before: seq<Gpu.Command>, mid: seq<Gpu.Command>, after: seq<Gpu.Command>,
                       s: nat, uniformBase: nat, gridBase: nat, n: nat, gridSizeX: nat, gridSizeY: nat, b: BukkitSystem)
    requires uniformBase == Stride(s, n + 1) && gridBase == Stride(s, n)
    requires UntimedAll(mid) == UntimedAll(before) + SubstepsPasses(s, n, gridSizeX, gridSizeY, b)
    requires UntimedAll(after) == UntimedAll(mid) + SubstepPasses(uniformBase, gridBase, n, gridSizeX, gridSizeY, b)
    ensures UntimedAll(after) == UntimedAll(before) + SubstepsPasses(s + 1, n, gridSizeX, gridSizeY, b)
  {
  }

  // ---------------------------------------------------------------------
  // What a frame's commands add up to
  // ---------------------------------------------------------------------

  /** A compute pass of the given shader. */
  predicate Runs(c: Gpu.Command, shader: string) {
    c.ComputePass? && c.shader == shader
  }

  /** How many passes of `shader` the commands hold. */
  function RunCount(cs: seq<Gpu.Command>, shader: string): (r: nat)
    ensures r <= |cs|
  {
    if |cs| == 0 then 0
    else RunCount(cs[..|cs| - 1], shader) + (if Runs(cs[|cs| - 1], shader) then 1 else 0)
  }

  lemma {:induction false} RunCountAppend(a: seq<Gpu.Command>, b: seq<Gpu.Command>, shader: string)
    ensures RunCount(a + b, shader) == RunCount(a, shader) + RunCount(b, shader)
    decreases |b|
  {
    if |b| == 0 {
      assert a + b == a;
    } else {
      assert (a + b)[..|a + b| - 1] == a + b[..|b| - 1];
      RunCountAppend(a, b[..|b| - 1], shader);
    }
  }

  lemma {:induction false} RunCountNone(cs: seq<Gpu.Command>, shader: string)
    requires forall i | 0 <= i < |cs| :: !Runs(cs[i], shader)
    ensures RunCount(cs, shader) == 0
    decreases |cs|
  {
    if |cs| > 0 {
      RunCountNone(cs[..|cs| - 1], shader);
    }
  }

  /** A grid buffer cleared. */
  predicate ClearsGrid(c: Gpu.Command) {
    c.ClearBuffer? && c.buffer in GridBuffers
  }

  /** Each solver iteration is one particle-to-grid pass. */
  lemma {:induction false} IterationRuns(uniformBase: nat, gridBase: nat, m: nat)
    ensures RunCount(IterationPasses(uniformBase, gridBase, m), G2P2GShader) == m
    ensures forall i | 0 <= i < m :: !ClearsGrid(IterationPasses(uniformBase, gridBase, m)[i])
  {
    if m > 0 {
      var last := G2P2GPass(UniformBuffer(uniformBase + m), gridBase + m - 1);
      IterationRuns(uniformBase, gridBase, m - 1);
      RunCountAppend(IterationPasses(uniformBase, gridBase, m - 1), [last], G2P2GShader);
      assert [last][..0] == [];
    }
  }

  /** A substep's passes before its iterations: no particle-to-grid pass and no grid cleared. */
  lemma SubstepPreludeRuns(uniform: string, gridSizeX: nat, gridSizeY: nat, b: BukkitSystem)
    ensures RunCount(EmissionPasses(uniform, gridSizeX, gridSizeY) + BukkitizePasses(uniform, b), G2P2GShader) == 0
    ensures forall i | 0 <= i < 11 :: !ClearsGrid((EmissionPasses(uniform, gridSizeX, gridSizeY) + BukkitizePasses(uniform, b))[i])
  {
    var prelude := EmissionPasses(uniform, gridSizeX, gridSizeY) + BukkitizePasses(uniform, b);
    assert forall i | 0 <= i < |prelude| :: !Runs(prelude[i], G2P2GShader) && !ClearsGrid(prelude[i]);
    RunCountNone(prelude, G2P2GShader);
  }

  /** A substep runs the particle-to-grid pass once per iteration and clears no grid. */
  lemma SubstepRuns(uniformBase: nat, gridBase: nat, n: nat, gridSizeX: nat, gridSizeY: nat, b: BukkitSystem)
    ensures RunCount(SubstepPasses(uniformBase, gridBase, n, gridSizeX, gridSizeY, b), G2P2GShader) == n
    ensures forall i | 0 <= i < 11 + n :: !ClearsGrid(SubstepPasses(uniformBase, gridBase, n, gridSizeX, gridSizeY, b)[i])
  {
    var uniform := UniformBuffer(uniformBase);
    var prelude := EmissionPasses(uniform, gridSizeX, gridSizeY) + BukkitizePasses(uniform, b);
    var iterations := IterationPasses(uniformBase, gridBase, n);
    SubstepPassesSplit(uniformBase, gridBase, n, gridSizeX, gridSizeY, b);
    SubstepPreludeRuns(uniform, gridSizeX, gridSizeY, b);
    IterationRuns(uniformBase, gridBase, n);
    RunCountAppend(prelude, iterations, G2P2GShader);
  }

  /** Each substep records `11 + n` commands. */
  lemma {:induction false} SubstepsLength(count: nat, n: nat, gridSizeX: nat, gridSizeY: nat, b: BukkitSystem)
    ensures |SubstepsPasses(count, n, gridSizeX, gridSizeY, b)| == Stride(count, 11 + n)
  {
    if count > 0 {
      SubstepsLength(count - 1, n, gridSizeX, gridSizeY, b);
    }
  }

  /** The substeps together: `n` particle-to-grid passes each, and no grid cleared. */
  lemma {:induction false} SubstepsRuns(count: nat, n: nat, gridSizeX: nat, gridSizeY: nat, b: BukkitSystem)
    ensures RunCount(SubstepsPasses(count, n, gridSizeX, gridSizeY, b), G2P2GShader) == Stride(count, n)
    ensures forall i | 0 <= i < |SubstepsPasses(count, n, gridSizeX, gridSizeY, b)| :: !ClearsGrid(SubstepsPasses(count, n, gridSizeX, gridSizeY, b)[i])
  {
    if count > 0 {
      var before := SubstepsPasses(count - 1, n, gridSizeX, gridSizeY, b);
      var step := SubstepPasses(Stride(count - 1, n + 1), Stride(count - 1, n), n, gridSizeX, gridSizeY, b);
      SubstepsRuns(count - 1, n, gridSizeX, gridSizeY, b);
      SubstepsLength(count - 1, n, gridSizeX, gridSizeY, b);
      SubstepRuns(Stride(count - 1, n + 1), Stride(count - 1, n), n, gridSizeX, gridSizeY, b);
      RunCountAppend(before, step, G2P2GShader);
      assert forall i | |before| <= i < |before + step| :: (before + step)[i] == step[i - |before|];
    }
  }

  /**
   * A frame of `count` substeps of `n` iterations: the three grids cleared
   * first and never again, `count * n` particle-to-grid passes, and
   * `3 + count * (11 + n)` commands in all.
   */
  lemma FrameRuns(count: nat, n: nat, gridSizeX: nat, gridSizeY: nat, b: BukkitSystem)
    ensures |FramePasses(count, n, gridSizeX, gridSizeY, b)| == 3 + count * (11 + n)
    ensures RunCount(FramePasses(count, n, gridSizeX, gridSizeY, b), G2P2GShader) == count * n
    ensures forall g | 0 <= g < 3 :: FramePasses(count, n, gridSizeX, gridSizeY, b)[g] == Gpu.ClearBuffer(GridBuffers[g])
    ensures forall i | 3 <= i < |FramePasses(count, n, gridSizeX, gridSizeY, b)| ::
      !ClearsGrid(FramePasses(count, n, gridSizeX, gridSizeY, b)[i])
  {
    var substeps := SubstepsPasses(count, n, gridSizeX, gridSizeY, b);
    SubstepsRuns(count, n, gridSizeX, gridSizeY, b);
    SubstepsLength(count, n, gridSizeX, gridSizeY, b);
    StrideIsProduct(count, 11 + n);
    StrideIsProduct(count, n);
    RunCountNone(GridClears, G2P2GShader);
    RunCountAppend(GridClears, substeps, G2P2GShader);
    assert forall i | 3 <= i < |GridClears + substeps| :: (GridClears + substeps)[i] == substeps[i - 3];
  }

  /** Pass `p` of substep `s` sits at `s * (11 + n) + p` among the substeps' commands. */
  lemma {:induction false} SubstepsPassAt(count: nat, n: nat, gridSizeX: nat, gridSizeY: nat, b: BukkitSystem, s: nat, p: nat)
    requires s < count && p < 11 + n
    ensures Stride(s, 11 + n) + p < |SubstepsPasses(count, n, gridSizeX, gridSizeY, b)|
    ensures SubstepsPasses(count, n, gridSizeX, gridSizeY, b)[Stride(s, 11 + n) + p]
            == SubstepPasses(Stride(s, n + 1), Stride(s, n), n, gridSizeX, gridSizeY, b)[p]
  {
    var before := SubstepsPasses(count - 1, n, gridSizeX, gridSizeY, b);
    var step := SubstepPasses(Stride(count - 1, n + 1), Stride(count - 1, n), n, gridSizeX, gridSizeY, b);
    assert SubstepsPasses(count, n, gridSizeX, gridSizeY, b) == before + step;
    SubstepsLength(count - 1, n, gridSizeX, gridSizeY, b);
    var at := Stride(s, 11 + n) + p;
    if s < count - 1 {
      SubstepsPassAt(count - 1, n, gridSizeX, gridSizeY, b, s, p);
      assert (before + step)[at] == before[at];
    } else {
      assert (before + step)[at] == step[p];
    }
  }

  /** Iteration `j` of substep `s` is the frame's `(Stride(s, n) + j)`-th particle-to-grid pass. */
  lemma FramePassAt(count: nat, n: nat, gridSizeX: nat, gridSizeY: nat, b: BukkitSystem, s: nat, j: nat)
    requires s < count && j < n
    ensures var at := 3 + Stride(s, 11 + n) + 11 + j;
      && at < |FramePasses(count, n, gridSizeX, gridSizeY, b)|
      && FramePasses(count, n, gridSizeX, gridSizeY, b)[at] == G2P2GPass(UniformBuffer(Stride(s, n + 1) + j + 1), Stride(s, n) + j)
  {
    var substeps := SubstepsPasses(count, n, gridSizeX, gridSizeY, b);
    var iterations := IterationPasses(Stride(s, n + 1), Stride(s, n), n);
    SubstepsPassAt(count, n, gridSizeX, gridSizeY, b, s, 11 + j);
    assert SubstepPasses(Stride(s, n + 1), Stride(s, n), n, gridSizeX, gridSizeY, b)[11 + j] == iterations[j];
    IterationPassAt(Stride(s, n + 1), Stride(s, n), n, j);
    var at := Stride(s, 11 + n) + 11 + j;
    assert FramePasses(count, n, gridSizeX, gridSizeY, b) == GridClears + substeps;
    assert (GridClears + substeps)[3 + at] == substeps[at];
  }

  /** The `k`-th particle-to-grid pass binds grids `k mod 3`, `(k + 1) mod 3` and `(k + 2) mod 3`. */
  lemma G2P2GGrids(uniform: string, k: nat)
    ensures G2P2GBindings(uniform, k)[2..5] == [GridBuffers[k % 3], GridBuffers[(k + 1) % 3], GridBuffers[(k + 2) % 3]]
  {
    GridSlotIsRemainder(k);
    GridSlotIsRemainder(k + 1);
    GridSlotIsRemainder(k + 2);
  }

  /**
   * Iteration `j` of substep `s` is the frame's `k`-th particle-to-grid
   * pass, `k = s * n + j`, with substep `s`'s uniform buffer for that
   * iteration; by G2P2GGrids it binds grids `k mod 3` onwards.
   */
  lemma FrameG2P2G(count: nat, n: nat, gridSizeX: nat, gridSizeY: nat, b: BukkitSystem, s: nat, j: nat)
    requires s < count && j < n
    ensures 3 + s * (11 + n) + 11 + j < |FramePasses(count, n, gridSizeX, gridSizeY, b)|
    ensures FramePasses(count, n, gridSizeX, gridSizeY, b)[3 + s * (11 + n) + 11 + j]
            == G2P2GPass(UniformBuffer(s * (n + 1) + j + 1), s * n + j)
  {
    FramePassAt(count, n, gridSizeX, gridSizeY, b, s, j);
    StrideIsProduct(s, 11 + n);
    StrideIsProduct(s, n + 1);
    StrideIsProduct(s, n);
  }

  /** Iteration `j` of a substep binds its own uniform buffer and is the frame's `(gridBase + j)`-th pass. */
  lemma {:induction false} IterationPassAt(uniformBase: nat, gridBase: nat, m: nat, j: nat)
    requires j < m
    ensures IterationPasses(uniformBase, gridBase, m)[j] == G2P2GPass(UniformBuffer(uniformBase + j + 1), gridBase + j)
  {
    if j < m - 1 {
      IterationPassAt(uniformBase, gridBase, m - 1, j);
    }
  }

  /** `computeDispatch` with a list of buffers: always accepted, recorded as one pass. */
  method Dispatch(ctx: Gpu.Context, shader: string, names: seq<string>, groups: Gpu.GroupCount)
    requires ctx.Valid() && ctx.encoderOpen
    modifies ctx`commands, ctx`frameTimeStampCount, ctx`frameTimeStampNames, ctx`frameDispatches
    ensures ctx.Valid()
    ensures UntimedAll(ctx.commands) == UntimedAll(old(ctx.commands)) + [Dispatched(shader, names, groups)]
  {
    Gpu.BuffersAccepted(names);
    var r := ctx.ComputeDispatch(shader, Gpu.Buffers(names), groups);
    UntimedAppend(old(ctx.commands), [ctx.commands[|ctx.commands| - 1]]);
    assert ctx.commands == old(ctx.commands) + [ctx.commands[|ctx.commands| - 1]];
  }

  /** `doEmission`. */
  method DoEmission(ctx: Gpu.Context, uniform: string, gridSizeX: nat, gridSizeY: nat)
    requires ctx.Valid() && ctx.encoderOpen
    modifies ctx`commands, ctx`frameTimeStampCount, ctx`frameTimeStampNames, ctx`frameDispatches
    ensures ctx.Valid()
    ensures UntimedAll(ctx.commands) == UntimedAll(old(ctx.commands)) + EmissionPasses(uniform, gridSizeX, gridSizeY)
  {
    var threadGroupCountX := Gpu.DivUp(gridSizeX, GridDispatchSize);
    var threadGroupCountY := Gpu.DivUp(gridSizeY, GridDispatchSize);
    Dispatch(ctx, EmitShader, [uniform, ParticleCountBuffer, ParticleBuffer, ShapeBufferName, FreeIndicesBuffer],
             Gpu.Counts(threadGroupCountX, threadGroupCountY, 1));
    Dispatch(ctx, IndirectArgsShader, [ParticleCountBuffer, SimDispatchBuffer, RenderDispatchBuffer], Gpu.Counts(1, 1, 1));
  }

  /** `encoder.clearBuffer`, seen without timestamps. */
  method ClearCommand(ctx: Gpu.Context, buffer: string)
    requires ctx.encoderOpen
    modifies ctx`commands
    ensures UntimedAll(ctx.commands) == UntimedAll(old(ctx.commands)) + [Gpu.ClearBuffer(buffer)]
  {
    ctx.Clear(buffer);
    UntimedAppend(old(ctx.commands), [Gpu.ClearBuffer(buffer)]);
  }

  /** `update`'s first loop: the three grids cleared in order. */
  method ClearGrids(ctx: Gpu.Context)
    requires ctx.encoderOpen
    modifies ctx`commands
    ensures UntimedAll(ctx.commands) == UntimedAll(old(ctx.commands)) + GridClears
  {
    for i := 0 to 3
      invariant UntimedAll(ctx.commands) == UntimedAll(old(ctx.commands)) + GridClears[..i]
    {
      assert GridClears[..i + 1] == GridClears[..i] + [Gpu.ClearBuffer(GridBuffers[i])];
      ClearCommand(ctx, GridBuffers[i]);
    }
    assert GridClears[..3] == GridClears;
  }

  /** The clears and the copy `bukkitizeParticles` starts with. */
  method ResetBukkits(ctx: Gpu.Context)
    requires ctx.encoderOpen
    modifies ctx`commands
    ensures UntimedAll(ctx.commands) == UntimedAll(old(ctx.commands)) + BukkitResets
  {
    ClearCommand(ctx, BukkitCountBuffer);
    ClearCommand(ctx, BukkitCountBuffer2);
    ClearCommand(ctx, BukkitThreadData);
    ClearCommand(ctx, BukkitParticleData);
    ClearCommand(ctx, BukkitAllocator);
    ctx.Copy(BlankDispatch, BukkitDispatch, IntBufferBytes);
    UntimedAppend(old(ctx.commands), ctx.commands[|old(ctx.commands)|..]);
  }

  /** `bukkitizeParticles`. */
  method BukkitizeParticles(ctx: Gpu.Context, uniform: string, b: BukkitSystem)
    requires ctx.Valid() && ctx.encoderOpen
    modifies ctx`commands, ctx`frameTimeStampCount, ctx`frameTimeStampNames, ctx`frameDispatches
    ensures ctx.Valid()
    ensures UntimedAll(ctx.commands) == UntimedAll(old(ctx.commands)) + BukkitizePasses(uniform, b)
  {
    ResetBukkits(ctx);
    Dispatch(ctx, BukkitCountShader, [uniform, ParticleCountBuffer, ParticleBuffer, BukkitCountBuffer],
             Gpu.IndirectArgs(SimDispatchBuffer));
    var bukkitDispatchSize := Gpu.Counts(Gpu.DivUp(b.countX, GridDispatchSize), Gpu.DivUp(b.countY, GridDispatchSize), 1);
    Dispatch(ctx, BukkitAllocateShader, [uniform, BukkitCountBuffer, BukkitDispatch, BukkitThreadData, BukkitAllocator, BukkitIndexStart],
             bukkitDispatchSize);
    Dispatch(ctx, BukkitInsertShader, [uniform, ParticleCountBuffer, BukkitCountBuffer2, ParticleBuffer, BukkitParticleData, BukkitIndexStart],
             Gpu.IndirectArgs(SimDispatchBuffer));
  }

  /**
   * One particle-to-grid pass of `update`: it binds the grids at the
   * rotating index and its two successors, then moves the index on; as the
   * frame's `k`-th pass it is `G2P2GPass(uniform, k)`.
   */
  method DispatchG2P2G(ctx: Gpu.Context, uniform: string, bufferIdx: nat, ghost k: nat) returns (nextBufferIdx: nat)
    requires ctx.Valid() && ctx.encoderOpen && bufferIdx == GridSlot(k)
    modifies ctx`commands, ctx`frameTimeStampCount, ctx`frameTimeStampNames, ctx`frameDispatches
    ensures ctx.Valid()
    ensures UntimedAll(ctx.commands) == UntimedAll(old(ctx.commands)) + [G2P2GPass(uniform, k)]
    ensures nextBufferIdx == GridSlot(k + 1)
  {
    var currentGrid := GridBuffers[bufferIdx];
    var nextGrid := GridBuffers[(bufferIdx + 1) % 3];
    var nextNextGrid := GridBuffers[(bufferIdx + 2) % 3];
    var bindings := [uniform, ParticleBuffer, currentGrid, nextGrid, nextNextGrid,
                     BukkitThreadData, BukkitParticleData, ShapeBufferName, FreeIndicesBuffer];
    G2P2GRotation(uniform, k, bufferIdx, bindings);
    nextBufferIdx := (bufferIdx + 1) % 3;
    Dispatch(ctx, G2P2GShader, bindings, Gpu.IndirectArgs(BukkitDispatch));
  }

  class Simulator {
    const simFactory: Factory
    const shapeFactory: Factory
    var substepIndex: nat

    /** Both factories hold their compiled layouts, up to the values of the last buffer built. */
    ghost predicate Valid()
      reads simFactory, shapeFactory
    {
      && simFactory != shapeFactory
      && simFactory.Valid() && simFactory.compiled && simFactory.mode == Uniform
      && ClearValues(simFactory.elements) == SimConstantsLayout && simFactory.totalCount == SimConstantsWords
      && shapeFactory.Valid() && shapeFactory.compiled && shapeFactory.mode == Storage
      && ClearValues(shapeFactory.elements) == SimShapeLayout && shapeFactory.totalCount == SimShapeWords
    }

    constructor (simFactory: Factory, shapeFactory: Factory)
      requires simFactory != shapeFactory
      requires simFactory.Valid() && simFactory.compiled && simFactory.mode == Uniform
      requires simFactory.elements == SimConstantsLayout && simFactory.totalCount == SimConstantsWords
      requires shapeFactory.Valid() && shapeFactory.compiled && shapeFactory.mode == Storage
      requires shapeFactory.elements == SimShapeLayout && shapeFactory.totalCount == SimShapeWords
      ensures Valid() && substepIndex == 0
      ensures this.simFactory == simFactory && this.shapeFactory == shapeFactory
    {
      this.simFactory := simFactory;
      this.shapeFactory := shapeFactory;
      substepIndex := 0;
      new;
      assert ClearValues(SimConstantsLayout) == SimConstantsLayout;
      assert ClearValues(SimShapeLayout) == SimShapeLayout;
    }

    /**
     * `constructSimUniformBuffer`: the uniform buffer for one dispatch, with
     * the current substep index as `simFrame`; it fails exactly when the
     * inputs leave a field unset.
     */
    method ConstructSimUniformBuffer(u: UniformInputs, b: BukkitSystem, iteration: nat)
      returns (r: Result<seq<Word>, LayoutError>)
      requires Valid() && UniformInputsValid(u)
      modifies simFactory
      ensures Valid()
      ensures r == SimUniform(u, b, substepIndex, iteration)
    {
      var direct := DirectValues(u, b, substepIndex, iteration);
      var layers := [u.fields, direct, map[]];
      assert layers == UniformLayers(u, b, substepIndex, iteration);
      ConstantsLayout();
      DirectFits(u, b, substepIndex, iteration);
      assert ClearValues(SimConstantsLayout) == SimConstantsLayout;
      forall l | 0 <= l < |layers| ensures LayerFits(simFactory.elements, layers[l]) {
        SameShapeFits(simFactory.elements, SimConstantsLayout, layers[l]);
      }
      r := simFactory.ConstructUniformBuffer(layers);
      assert Resolve(old(simFactory.elements), layers) == Resolve(SimConstantsLayout, layers);
      ResolveKeepsLayout(SimConstantsLayout, layers);
    }

    /**
     * `constructShapeBuffer`: one record per box or circle, in scene order,
     * packed into the storage buffer; it never fails.
     */
    method ConstructShapeBuffer(shapes: seq<Shape>, simResDivisor: nat, gridSizeY: nat)
      returns (r: Result<seq<Word>, LayoutError>)
      requires Valid() && simResDivisor > 0
      modifies shapeFactory
      ensures Valid() && r.Ok?
      ensures r == ShapeBuffer(shapes, simResDivisor, gridSizeY)
    {
      var solverShapes: seq<map<string, Value>> := [];
      for i := 0 to |shapes|
        invariant solverShapes == SolverShapes(shapes[..i], simResDivisor, gridSizeY)
      {
        assert shapes[..i + 1][..i] == shapes[..i];
        var rec := ShapeRecord(shapes[i], simResDivisor, gridSizeY);
        if rec.Some? {
          solverShapes := solverShapes + [rec.value];
        }
      }
      assert shapes[..|shapes|] == shapes;
      ShapeBufferPacks(shapes, simResDivisor, gridSizeY);
      assert ClearValues(SimShapeLayout) == SimShapeLayout;
      forall l | 0 <= l < |solverShapes| ensures LayerFits(shapeFactory.elements, solverShapes[l]) {
        SameShapeFits(shapeFactory.elements, SimShapeLayout, solverShapes[l]);
      }
      r := shapeFactory.ConstructStorageBuffer(solverShapes);
      PackRecordsSameShape(old(shapeFactory.elements), SimShapeLayout, solverShapes, SimShapeWords);
    }

    /**
     * One solver iteration of a substep: its uniform buffer, numbered after
     * `uniformBase`, then the frame's `gridBase + iterationIdx`-th
     * particle-to-grid pass.
     */
    method RunIteration(ctx: Gpu.Context, u: UniformInputs, b: BukkitSystem,
                        uniformBase: nat, ghost gridBase: nat, iterationIdx: nat, bufferIdx: nat)
      returns (simUniformBuffer: Result<seq<Word>, LayoutError>, nextBufferIdx: nat)
      requires Valid() && UniformInputsValid(u) && ctx.Valid() && ctx.encoderOpen
      requires bufferIdx == GridSlot(gridBase + iterationIdx)
      modifies simFactory, ctx`commands, ctx`frameTimeStampCount, ctx`frameTimeStampNames, ctx`frameDispatches
      ensures Valid() && ctx.Valid()
      ensures simUniformBuffer == SimUniform(u, b, substepIndex, iterationIdx)
      ensures UntimedAll(ctx.commands)
              == UntimedAll(old(ctx.commands)) + [G2P2GPass(UniformBuffer(uniformBase + iterationIdx + 1), gridBase + iterationIdx)]
      ensures nextBufferIdx == GridSlot(gridBase + iterationIdx + 1)
    {
      simUniformBuffer := ConstructSimUniformBuffer(u, b, iterationIdx);
      nextBufferIdx := DispatchG2P2G(ctx, UniformBuffer(uniformBase + iterationIdx + 1), bufferIdx, gridBase + iterationIdx);
    }

    /**
     * The solver iterations of `update`'s substep loop: a uniform buffer per
     * iteration, numbered after `uniformBase`, and a particle-to-grid pass
     * that rotates the grids; `gridBase` passes ran before in the frame.
     */
    method RunIterations(ctx: Gpu.Context, u: UniformInputs, b: BukkitSystem,
                         uniformBase: nat, ghost gridBase: nat, bufferIdx: nat)
      returns (iterationUniforms: seq<Result<seq<Word>, LayoutError>>, nextBufferIdx: nat)
      requires Valid() && UniformInputsValid(u) && ctx.Valid() && ctx.encoderOpen
      requires bufferIdx == GridSlot(gridBase)
      modifies simFactory, ctx`commands, ctx`frameTimeStampCount, ctx`frameTimeStampNames, ctx`frameDispatches
      ensures Valid() && ctx.Valid()
      ensures iterationUniforms == IterationUniforms(u, b, substepIndex, u.iterationCount)
      ensures UntimedAll(ctx.commands)
              == UntimedAll(old(ctx.commands)) + IterationPasses(uniformBase, gridBase, u.iterationCount)
      ensures nextBufferIdx == GridSlot(gridBase + u.iterationCount)
    {
      iterationUniforms := [];
      nextBufferIdx := bufferIdx;
      for iterationIdx := 0 to u.iterationCount
        invariant Valid() && ctx.Valid()
        invariant nextBufferIdx == GridSlot(gridBase + iterationIdx)
        invariant iterationUniforms == IterationUniforms(u, b, substepIndex, iterationIdx)
        invariant UntimedAll(ctx.commands)
                  == UntimedAll(old(ctx.commands)) + IterationPasses(uniformBase, gridBase, iterationIdx)
        modifies simFactory, ctx`commands, ctx`frameTimeStampCount, ctx`frameTimeStampNames, ctx`frameDispatches
      {
        ghost var mid := ctx.commands;
        var simUniformBuffer;
        simUniformBuffer, nextBufferIdx := RunIteration(ctx, u, b, uniformBase, gridBase, iterationIdx, nextBufferIdx);
        IterationUniformsAppend(u, b, substepIndex, iterationIdx);
        iterationUniforms := iterationUniforms + [simUniformBuffer];
        IterationFollows(old(ctx.commands), mid, ctx.commands, uniformBase, gridBase, iterationIdx);
      }
    }

    /**
     * The body of `update`'s substep loop: a uniform buffer for emission and
     * bucketing, then the iterations. The frame's uniform buffers so far
     * number `uniformBase`, its grid passes `gridBase`. Building the first
     * uniform buffer throws when the inputs leave a field unset, before
     * anything is recorded.
     */
    method RunSubstep(ctx: Gpu.Context, u: UniformInputs, b: BukkitSystem, gridSizeY: nat,
                      uniformBase: nat, ghost gridBase: nat, bufferIdx: nat)
      returns (outcome: Outcome<LayoutError>, substepUniforms: seq<Result<seq<Word>, LayoutError>>, nextBufferIdx: nat)
      requires Valid() && UniformInputsValid(u) && ctx.Valid() && ctx.encoderOpen
      requires bufferIdx == GridSlot(gridBase)
      modifies this, simFactory, ctx`commands, ctx`frameTimeStampCount, ctx`frameTimeStampNames, ctx`frameDispatches
      ensures Valid() && ctx.Valid()
      ensures outcome.Pass? <==> InputsComplete(u.fields)
      ensures outcome.Fail? ==>
                && ctx.commands == old(ctx.commands) && substepIndex == old(substepIndex)
                && SimUniform(u, b, old(substepIndex), 0) == Err(outcome.error)
      ensures outcome.Pass? ==>
                && substepUniforms == SubstepUniforms(u, b, old(substepIndex))
                && UntimedAll(ctx.commands)
                   == UntimedAll(old(ctx.commands))
                      + SubstepPasses(uniformBase, gridBase, u.iterationCount, u.gridSizeX, gridSizeY, b)
                && nextBufferIdx == GridSlot(gridBase + u.iterationCount)
                && substepIndex == old(substepIndex) + 1
    {
      var simUniformBuffer := ConstructSimUniformBuffer(u, b, 0);
      SimUniformOk(u, b, substepIndex, 0);
      if simUniformBuffer.Err? {
        return Fail(simUniformBuffer.error), [], bufferIdx;
      }
      var uniformName := UniformBuffer(uniformBase);
      DoEmission(ctx, uniformName, u.gridSizeX, gridSizeY);
      ghost var emitted := ctx.commands;
      BukkitizeParticles(ctx, uniformName, b);
      ghost var bucketed := ctx.commands;
      var iterationUniforms;
      iterationUniforms, nextBufferIdx := RunIterations(ctx, u, b, uniformBase, gridBase, bufferIdx);
      SubstepFollows(old(ctx.commands), emitted, bucketed, ctx.commands, uniformBase, gridBase, u.iterationCount,
                     u.gridSizeX, gridSizeY, b);
      SubstepUniformsSplit(u, b, substepIndex);
      substepUniforms := [simUniformBuffer] + iterationUniforms;
      substepIndex := substepIndex + 1;
      outcome := Pass;
    }

    /** `update`'s substep loop: `substepCount` substeps, none when it is not positive, stopping at a throw. */
    method RunSubsteps(ctx: Gpu.Context, u: UniformInputs, b: BukkitSystem, gridSizeY: nat, substepCount: int)
      returns (outcome: Outcome<LayoutError>, uniforms: seq<Result<seq<Word>, LayoutError>>)
      requires Valid() && UniformInputsValid(u) && ctx.Valid() && ctx.encoderOpen
      modifies this, simFactory, ctx`commands, ctx`frameTimeStampCount, ctx`frameTimeStampNames, ctx`frameDispatches
      ensures Valid() && ctx.Valid()
      ensures outcome.Pass? <==> LoopCount(substepCount) == 0 || InputsComplete(u.fields)
      ensures outcome.Fail? ==>
                && ctx.commands == old(ctx.commands) && substepIndex == old(substepIndex)
                && SimUniform(u, b, old(substepIndex), 0) == Err(outcome.error)
      ensures outcome.Pass? ==>
                && UntimedAll(ctx.commands)
                   == UntimedAll(old(ctx.commands))
                      + SubstepsPasses(LoopCount(substepCount), u.iterationCount, u.gridSizeX, gridSizeY, b)
                && uniforms == FrameUniforms(u, b, old(substepIndex), LoopCount(substepCount))
                && substepIndex == old(substepIndex) + LoopCount(substepCount)
    {
      var bufferIdx := 0;
      uniforms := [];
      var substepIdx := 0;
      ghost var passes := 0;
      while substepIdx < substepCount
        invariant substepIdx <= LoopCount(substepCount)
        invariant Valid() && ctx.Valid()
        invariant substepIndex == old(substepIndex) + substepIdx
        invariant passes == Stride(substepIdx, u.iterationCount) && bufferIdx == GridSlot(passes)
        invariant substepIdx > 0 ==> InputsComplete(u.fields)
        invariant substepIdx == 0 ==> ctx.commands == old(ctx.commands)
        invariant uniforms == FrameUniforms(u, b, old(substepIndex), substepIdx)
        invariant UntimedAll(ctx.commands)
                  == UntimedAll(old(ctx.commands))
                     + SubstepsPasses(substepIdx, u.iterationCount, u.gridSizeX, gridSizeY, b)
      {
        ghost var before := ctx.commands;
        ghost var simFrame := substepIndex;
        var stepOutcome, stepUniforms;
        stepOutcome, stepUniforms, bufferIdx :=
          RunSubstep(ctx, u, b, gridSizeY, |uniforms|, passes, bufferIdx);
        if stepOutcome.Fail? {
          assert substepIdx == 0 && LoopCount(substepCount) > 0;
          return stepOutcome, uniforms;
        }
        SubstepsFollow(old(ctx.commands), before, ctx.commands, substepIdx, |uniforms|, passes, u.iterationCount,
                       u.gridSizeX, gridSizeY, b);
        FrameUniformsFollow(u, b, old(substepIndex), substepIdx, simFrame, uniforms, stepUniforms);
        assert Stride(substepIdx + 1, u.iterationCount) == passes + u.iterationCount;
        uniforms := uniforms + stepUniforms;
        substepIdx := substepIdx + 1;
        passes := passes + u.iterationCount;
      }
      assert substepIdx == LoopCount(substepCount);
      outcome := Pass;
    }

    /**
     * `update`: one frame. The grids are cleared once, the shape buffer and
     * the bucket system are built, the regulator picks the substep count,
     * and the substeps run, the grids rotating from one pass to the next
     * across the whole frame. The commands recorded before a throw stay.
     */
    method Update(ctx: Gpu.Context, clock: Time.TimeState, u: UniformInputs, shapes: seq<Shape>,
                  gridSizeY: nat, maxParticleCount: nat, timeInputs: Time.TimeInputs)
      returns (outcome: Outcome<LayoutError>, uniforms: seq<Result<seq<Word>, LayoutError>>, shapeBuffer: seq<Word>)
      requires Valid() && UniformInputsValid(u) && clock.Valid() && ctx.Valid() && ctx.encoderOpen
      requires timeInputs.simRate == u.simRate
      modifies this, simFactory, shapeFactory, clock
      modifies ctx`commands, ctx`frameTimeStampCount, ctx`frameTimeStampNames, ctx`frameDispatches
      ensures Valid() && clock.Valid() && ctx.Valid()
      ensures clock.Snapshot() == Time.Regulate(old(clock.Snapshot()), timeInputs).0
      ensures shapeBuffer == ShapeBuffer(shapes, u.simResDivisor, gridSizeY).value
      ensures var count := FrameSubsteps(old(clock.Snapshot()), timeInputs);
              var start := if timeInputs.doReset then 0 else old(substepIndex);
              var b := ConstructBukkitSystem(u.gridSizeX, gridSizeY, maxParticleCount);
              && (outcome.Pass? <==> count == 0 || InputsComplete(u.fields))
              && (outcome.Pass? ==>
                    && UntimedAll(ctx.commands)
                       == UntimedAll(old(ctx.commands)) + FramePasses(count, u.iterationCount, u.gridSizeX, gridSizeY, b)
                    && uniforms == FrameUniforms(u, b, start, count)
                    && substepIndex == start + count)
              && (outcome.Fail? ==>
                    && UntimedAll(ctx.commands) == UntimedAll(old(ctx.commands)) + GridClears
                    && SimUniform(u, b, start, 0) == Err(outcome.error)
                    && substepIndex == start)
    {
      if timeInputs.doReset {
        substepIndex := 0;
      }
      ClearGrids(ctx);
      ghost var cleared := ctx.commands;
      var shapeResult := ConstructShapeBuffer(shapes, u.simResDivisor, gridSizeY);
      shapeBuffer := shapeResult.value;
      var b := ConstructBukkitSystem(u.gridSizeX, gridSizeY, maxParticleCount);
      var substepCount := clock.DoTimeRegulation(timeInputs);
      ghost var start := substepIndex;
      assert start == if timeInputs.doReset then 0 else old(substepIndex);
      ghost var count := FrameSubsteps(old(clock.Snapshot()), timeInputs);
      assert count == LoopCount(substepCount);
      outcome, uniforms := RunSubsteps(ctx, u, b, gridSizeY, substepCount);
      assert outcome.Pass? ==> substepIndex == start + count;
      if outcome.Pass? {
        FrameFollows(old(ctx.commands), cleared, ctx.commands, count, u.iterationCount, u.gridSizeX, gridSizeY, b);
      }
    }
  }
}
