/**
 * The page's top-level bookkeeping: loading a saved scene and fitting it
 * to the current canvas, remembering the chosen scene in a cookie, cycling
 * through the scene list, the loading spinner, and the flag that restarts
 * the simulation when a setting that shapes it changes.
 */
module Host {
  import opened Wrappers
  import opened Text
  import opened Scene

  // ---------------------------------------------------------------------
  // Loading a scene
  // ---------------------------------------------------------------------

  /** A saved scene: format version, the canvas size it was saved at, shapes and UI settings. */
  datatype SceneFile = SceneFile(
    version: real,
    resolutionWidth: real,
    resolutionHeight: real,
    shapes: seq<Shape>,
    settings: map<string, string>)

  /**
   * What loading hands to the page: the aspect ratio the canvas must take,
   * the fitted shapes, and the settings applied over the defaults (none
   * for a version 1 file).
   */
  datatype LoadedScene = LoadedScene(aspectRatio: real, shapes: seq<Shape>, settings: map<string, string>)

  const UnrecognizedVersion: string := "Unrecognized version"

  predicate KnownVersion(version: real) {
    1.0 <= version <= 2.0
  }

  /** `s` is `Math.sqrt(x)`. */
  predicate IsSqrt(s: real, x: real) {
    s >= 0.0 && s * s == x
  }

  /**
   * Positions stretch with the canvas per axis; sizes scale by the
   * geometric mean of the two stretches so shapes keep their proportions.
   */
  function Rescale(shape: Shape, widthScale: real, heightScale: real, sizeScale: real): (r: Shape)
    ensures r.position == Vec2(shape.position.x * widthScale, shape.position.y * heightScale)
    ensures r.halfSize == shape.halfSize.Scale(sizeScale) && r.radius == shape.radius * sizeScale
    ensures r.(position := shape.position, halfSize := shape.halfSize, radius := shape.radius) == shape
  {
    shape.(position := Vec2(shape.position.x * widthScale, shape.position.y * heightScale),
           halfSize := shape.halfSize.Scale(sizeScale),
           radius := shape.radius * sizeScale)
  }

  /** A canvas that keeps its aspect ratio scales sizes exactly as it scales positions. */
  lemma UniformStretch(scale: real, sizeScale: real)
    requires scale > 0.0 && IsSqrt(sizeScale, scale * scale)
    ensures sizeScale == scale
  {
    if sizeScale > scale {
      SquareMonotone(sizeScale, scale);
    } else if sizeScale < scale {
      SquareMonotone(scale, sizeScale);
    }
  }

  lemma SquareMonotone(a: real, b: real)
    requires 0.0 <= b < a
    ensures b * b < a * a
  {
    if b > 0.0 {
      assert b * b < a * b;
      assert b * a < a * a;
    } else {
      calc {
        b * b;
      ==
        0.0 * 0.0;
      <
        a * a;
      }
    }
  }

  /** Loading at the resolution the scene was saved at leaves every shape as it was. */
  lemma SameResolutionKeepsShapes(shape: Shape, sizeScale: real)
    requires IsSqrt(sizeScale, 1.0 * 1.0)
    ensures Rescale(shape, 1.0, 1.0, sizeScale) == shape
  {
    UniformStretch(1.0, sizeScale);
  }

  /**
   * Checks the version, fits the shapes to a canvas of
   * `currentWidth` x `currentHeight`, and picks the settings to apply.
   * `sizeScale` is the square root of the product of the two stretches.
   */
  method LoadScene(file: SceneFile, currentWidth: real, currentHeight: real, sizeScale: real)
    returns (r: Result<LoadedScene, string>)
    requires file.resolutionWidth > 0.0 && file.resolutionHeight > 0.0
    requires IsSqrt(sizeScale, (currentWidth / file.resolutionWidth) * (currentHeight / file.resolutionHeight))
    ensures r.Err? <==> !KnownVersion(file.version)
    ensures r.Err? ==> r.error == UnrecognizedVersion
    ensures r.Ok? ==>
      r.value.aspectRatio == file.resolutionWidth / file.resolutionHeight &&
      |r.value.shapes| == |file.shapes| &&
      (forall k | 0 <= k < |file.shapes| ::
         r.value.shapes[k] == Rescale(file.shapes[k], currentWidth / file.resolutionWidth,
                                      currentHeight / file.resolutionHeight, sizeScale)) &&
      r.value.settings == (if file.version >= 2.0 then file.settings else map[])
  {
    if file.version < 1.0 || file.version > 2.0 {
      return Err(UnrecognizedVersion);
    }
    var aspectRatio := file.resolutionWidth / file.resolutionHeight;
    var widthScale := currentWidth / file.resolutionWidth;
    var heightScale := currentHeight / file.resolutionHeight;
    var shapes: seq<Shape> := [];
    for k := 0 to |file.shapes|
      invariant |shapes| == k
      invariant forall j | 0 <= j < k :: shapes[j] == Rescale(file.shapes[j], widthScale, heightScale, sizeScale)
    {
      shapes := shapes + [Rescale(file.shapes[k], widthScale, heightScale, sizeScale)];
    }
    var settings: map<string, string> := map[];
    if file.version >= 2.0 {
      settings := file.settings;
    }
    return Ok(LoadedScene(aspectRatio, shapes, settings));
  }

  // ---------------------------------------------------------------------
  // The scene cookie
  // ---------------------------------------------------------------------

  const SceneCookiePrefix: string := "pbmpm-scene="

  /** The cookie entry remembering scene `index`, as loading a scene writes it. */
  function SceneCookie(index: nat): string {
    SceneCookiePrefix + NatToString(index)
  }

  /** `rows.find(row => row.startsWith(prefix))`, as the index of the row found. */
  function FindWithPrefix(rows: seq<string>, prefix: string): (r: Option<nat>)
    ensures r.Some? ==> r.value < |rows| && StartsWith(rows[r.value], prefix)
    ensures r.Some? ==> forall k | 0 <= k < r.value :: !StartsWith(rows[k], prefix)
    ensures r.None? <==> forall k | 0 <= k < |rows| :: !StartsWith(rows[k], prefix)
  {
    if |rows| == 0 then None
    else if StartsWith(rows[0], prefix) then Some(0)
    else
      match FindWithPrefix(rows[1..], prefix)
      case None => None
      case Some(k) => Some(k + 1)
  }

  /** A string holding the separator splits into at least two parts. */
  lemma SplitAtOccurrence(s: string, sep: string, i: nat)
    requires |sep| > 0 && OccursAt(s, sep, i)
    ensures |Split(s, sep)| >= 2
  {
  }

  /**
   * `document.cookie.split("; ").find(...)?.split("=")[1]`: the text after
   * the first `=` of the first `pbmpm-scene=` entry, up to any further `=`.
   */
  function CookieValue(cookie: string): (v: Option<string>)
    ensures v.Some? ==> !Contains(v.value, "=")
  {
    var rows := Split(cookie, "; ");
    match FindWithPrefix(rows, SceneCookiePrefix)
    case None => None
    case Some(k) =>
      assert OccursAt(rows[k], "=", 11) by {
        assert rows[k][11..12] == SceneCookiePrefix[11..12];
      }
      SplitAtOccurrence(rows[k], "=", 11);
      Some(Split(rows[k], "=")[1])
  }

  /** `Math.min(x, n)` of a number and a natural: `NaN` stays `NaN`, otherwise the lesser of the two. */
  function MinWith(x: JsNumber, n: nat): (r: JsNumber)
    ensures r.NaN? <==> x.NaN?
    ensures r != PosInfinity
    ensures r.Finite? ==> r.value <= n as real
    ensures x.Finite? ==> r.Finite? && r.value <= x.value && (r.value == x.value || r.value == n as real)
    ensures x == PosInfinity ==> r == Finite(n as real)
  {
    match x
    case NaN => NaN
    case Finite(v) => Finite(if v < n as real then v else n as real)
    case PosInfinity => Finite(n as real)
    case NegInfinity => NegInfinity
  }

  /**
   * The scene chosen at start-up: scene 0 unless the cookie holds a
   * non-empty value, which is read with `Number` and clamped by
   * `Math.min(value, manifest.length)` (which lets it equal the length). A
   * value that is not a number gives `NaN`.
   */
  function StartScene(cookie: string, manifestLength: nat): (c: JsNumber)
    ensures CookieValue(cookie).None? || CookieValue(cookie) == Some("") ==> c == Finite(0.0)
    ensures c.Finite? ==> c.value <= manifestLength as real
    ensures c != PosInfinity
    ensures c.NaN? <==>
      (CookieValue(cookie).Some? && CookieValue(cookie) != Some("") && ToNumber(CookieValue(cookie).value).NaN?)
  {
    match CookieValue(cookie)
    case None => Finite(0.0)
    case Some(value) =>
      if value == "" then Finite(0.0)
      else MinWith(ToNumber(value), manifestLength)
  }

  /** A string with none of the separator's first character has no occurrence of it. */
  lemma NoOccurrence(s: string, sep: string)
    requires |sep| > 0 && forall i | 0 <= i < |s| :: s[i] != sep[0]
    ensures !Contains(s, sep)
  {
    forall i | 0 <= i <= |s| ensures !OccursAt(s, sep, i) {
      assert i < |s| ==> s[i..][0] != sep[0];
    }
  }

  lemma SplitWithout(s: string, sep: string)
    requires |sep| > 0 && !Contains(s, sep)
    ensures Split(s, sep) == [s]
  {
  }

  /**
   * A cookie that is just the scene entry with a value free of `;` and `=`
   * starts the scene `Math.min(Number(value), length)`: `pbmpm-scene=0x1`
   * starts scene 1, and `pbmpm-scene=abc` gives `NaN`.
   */
  lemma CookieReadsValue(value: string, manifestLength: nat)
    requires value != ""
    requires forall i | 0 <= i < |value| :: value[i] != ';' && value[i] != '='
    ensures StartScene(SceneCookiePrefix + value, manifestLength) == MinWith(ToNumber(value), manifestLength)
  {
    var row := SceneCookiePrefix + value;
    assert forall i | 0 <= i < |row| :: row[i] != ';' by {
      forall i | 0 <= i < |row| ensures row[i] != ';' {
        if i >= |SceneCookiePrefix| {
          assert row[i] == value[i - |SceneCookiePrefix|];
        }
      }
    }
    NoOccurrence(row, "; ");
    SplitWithout(row, "; ");
    assert FindWithPrefix([row], SceneCookiePrefix) == Some(0);
    NoOccurrence(value, "=");
    assert IndexOf(row, "=") == 11 by {
      assert OccursAt(row, "=", 11) by {
        assert row[11..12] == SceneCookiePrefix[11..12];
      }
      forall i | 0 <= i < 11 ensures !OccursAt(row, "=", i) {
        assert row[i..i + 1][0] == SceneCookiePrefix[i];
      }
    }
    assert row[12..] == value;
    SplitWithout(value, "=");
    assert Split(row, "=") == [row[..11]] + [value];
    assert CookieValue(row) == Some(value);
  }

  /**
   * Reading back the entry that loading scene `index` writes gives that
   * scene, clamped to the manifest length: an index past the end survives
   * as the length itself.
   */
  lemma CookieRoundTrip(index: nat, manifestLength: nat)
    ensures StartScene(SceneCookie(index), manifestLength)
      == Finite(if index < manifestLength then index as real else manifestLength as real)
  {
    var digits := NatToString(index);
    assert forall i | 0 <= i < |digits| :: digits[i] != ';' && digits[i] != '=' by {
      assert forall i | 0 <= i < |digits| :: IsDigit(digits[i]);
    }
    CookieReadsValue(digits, manifestLength);
    NumberOfNatToString(index);
  }

  /** The scene after `scenario` in the list, wrapping round to the first. */
  function NextScene(scenario: nat, manifestLength: nat): (next: nat)
    requires manifestLength > 0
    ensures next < manifestLength
    ensures scenario + 1 < manifestLength ==> next == scenario + 1
    ensures scenario + 1 == manifestLength ==> next == 0
  {
    (scenario + 1) % manifestLength
  }

  function CycleScenes(scenario: nat, manifestLength: nat, times: nat): nat
    requires manifestLength > 0
  {
    if times == 0 then scenario else NextScene(CycleScenes(scenario, manifestLength, times - 1), manifestLength)
  }

  /** While the list does not run out, each cycle moves one place on. */
  lemma {:induction false} CycleAdvances(scenario: nat, manifestLength: nat, times: nat)
    requires scenario + times < manifestLength
    ensures CycleScenes(scenario, manifestLength, times) == scenario + times
  {
    if times > 0 {
      CycleAdvances(scenario, manifestLength, times - 1);
    }
  }

  /** Cycling `a + b` times is cycling `a` times, then `b` more. */
  lemma {:induction false} CycleCompose(scenario: nat, manifestLength: nat, a: nat, b: nat)
    requires manifestLength > 0
    ensures CycleScenes(scenario, manifestLength, a + b)
      == CycleScenes(CycleScenes(scenario, manifestLength, a), manifestLength, b)
  {
    if b > 0 {
      CycleCompose(scenario, manifestLength, a, b - 1);
    }
  }

  /** A full round of the list, one cycle per scene, comes back to the starting scene. */
  lemma CycleFullRound(scenario: nat, manifestLength: nat)
    requires scenario < manifestLength
    ensures CycleScenes(scenario, manifestLength, manifestLength) == scenario
  {
    var toEnd := manifestLength - scenario;
    CycleAdvances(scenario, manifestLength, toEnd - 1);
    assert CycleScenes(scenario, manifestLength, toEnd) == 0;
    CycleCompose(scenario, manifestLength, toEnd, scenario);
    if scenario > 0 {
      CycleAdvances(0, manifestLength, scenario);
    }
  }

  // ---------------------------------------------------------------------
  // The loading spinner
  // ---------------------------------------------------------------------

  const SpinnerFramesPerDot: nat := 5
  const SpinnerPeriod: nat := 4 * SpinnerFramesPerDot

  function Dots(n: nat): (s: string)
    ensures |s| == n && forall i | 0 <= i < n :: s[i] == '.'
  {
    if n == 0 then "" else Dots(n - 1) + "."
  }

  class Spinner {
    var state: nat

    ghost predicate Valid()
      reads this
    {
      state < SpinnerPeriod
    }

    constructor ()
      ensures Valid() && state == 0
    {
      state := 0;
    }

    /** One frame of the loading text: between zero and three dots, one more every fifth frame. */
    method Update() returns (text: string)
      requires Valid()
      modifies this
      ensures Valid()
      ensures text == "Loading" + Dots(old(state) / SpinnerFramesPerDot)
      ensures 7 <= |text| <= 10
      ensures state == (old(state) + 1) % SpinnerPeriod
    {
      text := "Loading" + Dots(state / SpinnerFramesPerDot);
      state := (state + 1) % SpinnerPeriod;
    }
  }

  // ---------------------------------------------------------------------
  // The restart flag
  // ---------------------------------------------------------------------

  /** The inputs the page compares from frame to frame. */
  datatype Inputs = Inputs(
    scenario: int,
    simResDivisor: int,
    addLiquid: bool,
    addElastic: bool,
    particlesPerCellAxis: int,
    solverType: int,
    gridSizeX: int,
    gridSizeY: int,
    mousePosition: Vec2)

  /** The inputs handed to the simulation for one frame. */
  datatype FrameInputs = FrameInputs(
    inputs: Inputs,
    doReset: bool,
    doPause: bool,
    mousePrevPosition: Vec2,
    mouseRadius: real)

  /** The mouse's radius of influence at start-up, in canvas pixels. */
  const InitialMouseRadius: real := 100.0

  /**
   * A setting that shapes the particle system changed. The comparison with
   * the position-based-fluids solver names an enumeration entry the
   * program does not define, so that clause never holds and is omitted.
   */
  predicate ResetTriggered(prev: Inputs, current: Inputs) {
    current.simResDivisor != prev.simResDivisor
    || current.addLiquid != prev.addLiquid
    || current.addElastic != prev.addElastic
    || current.particlesPerCellAxis != prev.particlesPerCellAxis
    || current.gridSizeX != prev.gridSizeX
    || current.gridSizeY != prev.gridSizeY
  }

  /** The part of the inputs that fixes the particle system. */
  function SystemSettings(i: Inputs): (int, bool, bool, int, int, int) {
    (i.simResDivisor, i.addLiquid, i.addElastic, i.particlesPerCellAxis, i.gridSizeX, i.gridSizeY)
  }

  class Page {
    var reset: bool
    var pause: bool
    var prevInputs: Inputs
    var mouseRadius: real

    /** Start-up: a restart is pending and no scenario counts as loaded yet. */
    constructor (initial: Inputs)
      ensures reset && !pause
      ensures prevInputs == initial.(scenario := -1)
      ensures mouseRadius == InitialMouseRadius
    {
      reset := true;
      pause := false;
      prevInputs := initial.(scenario := -1);
      mouseRadius := InitialMouseRadius;
    }

    /**
     * The mouse wheel: while the mouse is down the radius is scaled by
     * `factor`, which stands for `Math.pow(1.1, wheelDelta / 120)` and is
     * therefore positive; otherwise nothing changes. A positive radius stays
     * positive.
     */
    method Wheel(isMouseDown: bool, factor: real)
      requires factor > 0.0
      modifies this`mouseRadius
      ensures mouseRadius == if isMouseDown then old(mouseRadius) * factor else old(mouseRadius)
      ensures old(mouseRadius) > 0.0 ==> mouseRadius > 0.0
    {
      if isMouseDown {
        mouseRadius := mouseRadius * factor;
      }
    }

    /**
     * Reads the frame's inputs. A new scenario starts a scene load; a
     * changed system setting resizes the grid and requests a restart;
     * `refreshed` are the inputs read again after any resize. The pending
     * restart is handed to this frame and cleared.
     */
    method UpdateInputs(current: Inputs, refreshed: Inputs)
      returns (frame: FrameInputs, loadScenario: bool, resize: bool)
      modifies this
      ensures loadScenario <==> current.scenario != old(prevInputs).scenario
      ensures resize <==> ResetTriggered(old(prevInputs), current)
      ensures frame.doReset <==> old(reset) || ResetTriggered(old(prevInputs), current)
      ensures frame == FrameInputs(refreshed, frame.doReset, old(pause), old(prevInputs).mousePosition, old(mouseRadius))
      ensures !reset && pause == old(pause) && prevInputs == refreshed && mouseRadius == old(mouseRadius)
    {
      loadScenario := current.scenario != prevInputs.scenario;
      resize := false;
      if ResetTriggered(prevInputs, current) {
        resize := true;
        reset := true;
      }
      frame := FrameInputs(refreshed, reset, pause, prevInputs.mousePosition, mouseRadius);
      reset := false;
      prevInputs := refreshed;
    }

    /**
     * Two frames in a row. The first resets exactly when a restart was
     * pending or a system setting changed since the last frame; the
     * second, whose system settings are those the first left behind, does
     * not reset, whatever its mouse position, scenario or solver.
     */
    method TwoFrames(first: Inputs, firstRefreshed: Inputs, second: Inputs, secondRefreshed: Inputs)
      returns (a: FrameInputs, b: FrameInputs)
      requires SystemSettings(second) == SystemSettings(firstRefreshed)
      modifies this
      ensures a.doReset <==> old(reset) || SystemSettings(old(prevInputs)) != SystemSettings(first)
      ensures !b.doReset
      ensures !reset && prevInputs == secondRefreshed
    {
      var loadScenario, resize;
      a, loadScenario, resize := UpdateInputs(first, firstRefreshed);
      b, loadScenario, resize := UpdateInputs(second, secondRefreshed);
    }

    /** A scene finished loading: restart with it. */
    method SceneLoaded()
      modifies this`reset
      ensures reset
    {
      reset := true;
    }

    /** The reset button. */
    method RequestReset()
      modifies this`reset
      ensures reset
    {
      reset := true;
    }

    /** The pause button. */
    method TogglePause()
      modifies this`pause
      ensures pause == !old(pause)
    {
      pause := !pause;
    }
  }
}
