/**
 * The host-side bookkeeping of the GPU context: work-group arithmetic, the
 * classification and validation of a compute dispatch's resources, the
 * per-frame timestamp indices, the gating of the staging-buffer readbacks and
 * the statistics those readbacks update. WebGPU calls are recorded as a trace
 * of abstract commands on the current encoder.
 */
module Gpu {
  import opened Wrappers
  import Text

  /** `divUp`: the number of work groups of `divisor` threads that cover `threadCount` threads. */
  function DivUp(threadCount: int, divisor: int): (groups: int)
    requires divisor > 0
  {
    // Dafny's division by a positive divisor rounds down, as `Math.floor` does.
    (threadCount + divisor - 1) / divisor
  }

  /** `divUp` is the ceiling of the quotient: the least group count whose threads cover `n`. */
  lemma DivUpIsCeiling(n: int, d: int)
    requires d > 0
    ensures DivUp(n, d) * d >= n
    ensures (DivUp(n, d) - 1) * d < n
    ensures n >= 0 ==> DivUp(n, d) >= 0
  {
    var q, r := (n + d - 1) / d, (n + d - 1) % d;
    assert n + d - 1 == q * d + r && 0 <= r < d;
    assert q * d == n + (d - 1 - r);
    assert (q - 1) * d == n - 1 - r;
  }

  // ---------------------------------------------------------------------------
  // Resources and commands
  // ---------------------------------------------------------------------------

  /**
   * A JavaScript value passed as a dispatch resource: a GPU buffer (named by
   * its label), a falsy value, some other truthy object, or an array.
   */
  datatype Resource = Buffer(name: string) | Falsy | Opaque | List(items: seq<Resource>)

  /** One bind-group entry: binding slot `binding` holds the named buffer. */
  datatype BindEntry = BindEntry(binding: nat, buffer: string)

  /** The `groupCount` argument: an array of three counts, or an indirect-arguments buffer. */
  datatype GroupCount = Counts(x: int, y: int, z: int) | IndirectArgs(buffer: string)

  /** How a compute pass is launched. */
  datatype Workgroups = Direct(x: int, y: int, z: int) | Indirect(buffer: string, offset: nat)

  /** The commands recorded on an encoder. Buffer offsets not shown are 0. */
  datatype Command =
    | ComputePass(shader: string, groups: seq<seq<BindEntry>>, launch: Workgroups, firstTimeStamp: Option<nat>)
    | ClearBuffer(buffer: string)
    | CopyBuffer(source: string, destination: string, bytes: nat)
    | ResolveQueries(count: nat)

  /** The exceptions `computeDispatch` throws. */
  datatype DispatchError = FalsyResource(index: nat) | FalsyMember(group: nat, index: nat) | UnexpectedResources {
    function Message(shaderName: string): string {
      match this
      case FalsyResource(i) =>
        "Compute Dispatch [" + shaderName + "]: Resource at index " + Text.NatToString(i) + " was falsy!"
      case FalsyMember(i, j) =>
        "Compute Dispatch [" + shaderName + "]: Resource at group " + Text.NatToString(i)
        + " index " + Text.NatToString(j) + " was falsy!"
      case UnexpectedResources =>
        "Expected resources to be an array of resources OR an array of arrays of resources."
    }
  }

  // ---------------------------------------------------------------------------
  // Classification of a resource list
  // ---------------------------------------------------------------------------

  /** The first falsy member of `items` at or after `from`, or -1. */
  function FirstFalsyIn(items: seq<Resource>, from: nat): (j: int)
    ensures j == -1 || from <= j < |items|
    ensures j >= 0 ==> items[j].Falsy?
    ensures forall k | from <= k < |items| && (j == -1 || k < j) :: !items[k].Falsy?
    decreases |items| - from
  {
    if from >= |items| then -1
    else if items[from].Falsy? then from
    else FirstFalsyIn(items, from + 1)
  }

  /**
   * The error of the validating scan, left to right from `from`: a falsy
   * top-level resource, or a falsy member of an array entry.
   */
  function FirstFalsy(resources: seq<Resource>, from: nat): Option<DispatchError>
    decreases |resources| - from
  {
    if from >= |resources| then None
    else if resources[from].Falsy? then Some(FalsyResource(from))
    else if resources[from].List? && FirstFalsyIn(resources[from].items, 0) >= 0 then
      Some(FalsyMember(from, FirstFalsyIn(resources[from].items, 0)))
    else FirstFalsy(resources, from + 1)
  }

  /** Every resource is a buffer (`isSimpleFlatBufferList`). */
  predicate IsFlat(resources: seq<Resource>) {
    forall i | 0 <= i < |resources| :: resources[i].Buffer?
  }

  /** Every member of every array entry is a buffer (`isNestedBufferList`). */
  predicate IsNested(resources: seq<Resource>) {
    forall i, j | 0 <= i < |resources| && resources[i].List? && 0 <= j < |resources[i].items| ::
      resources[i].items[j].Buffer?
  }

  /** The single bind group of a flat list: binding i holds resource i. */
  function FlatGroup(resources: seq<Resource>): seq<BindEntry>
    requires IsFlat(resources)
  {
    seq(|resources|, i requires 0 <= i < |resources| => BindEntry(i, resources[i].name))
  }

  /** The bind group of one entry of a nested list; a non-array entry gives an empty group. */
  function MemberGroup(r: Resource): seq<BindEntry>
    requires r.List? ==> forall j | 0 <= j < |r.items| :: r.items[j].Buffer?
  {
    if r.List? then seq(|r.items|, j requires 0 <= j < |r.items| => BindEntry(j, r.items[j].name)) else []
  }

  /** The bind groups of a nested list: group i binds the members of entry i. */
  function NestedGroups(resources: seq<Resource>): seq<seq<BindEntry>>
    requires IsNested(resources)
  {
    seq(|resources|, i requires 0 <= i < |resources| => MemberGroup(resources[i]))
  }

  /** What `computeDispatch` makes of its resources: the bind groups, or the exception. */
  function Classify(resources: seq<Resource>): Result<seq<seq<BindEntry>>, DispatchError> {
    match FirstFalsy(resources, 0)
    case Some(e) => Err(e)
    case None =>
      if IsFlat(resources) then Ok([FlatGroup(resources)])
      else if IsNested(resources) then Ok(NestedGroups(resources))
      else Err(UnexpectedResources)
  }

  /** The scan's error names a falsy value, and every value before it is truthy. */
  lemma {:induction false} FirstFalsyIsFirst(resources: seq<Resource>, from: nat)
    ensures FirstFalsy(resources, from).Some? ==>
      match FirstFalsy(resources, from).value
      case FalsyResource(i) =>
        from <= i < |resources| && resources[i].Falsy? && NoFalsyBefore(resources, from, i)
      case FalsyMember(i, j) =>
        && from <= i < |resources| && resources[i].List? && j < |resources[i].items|
        && resources[i].items[j].Falsy?
        && (forall k | 0 <= k < j :: !resources[i].items[k].Falsy?)
        && NoFalsyBefore(resources, from, i) && !resources[i].Falsy?
      case UnexpectedResources => false
    ensures FirstFalsy(resources, from).None? ==> NoFalsyBefore(resources, from, |resources|)
    decreases |resources| - from
  {
    if from < |resources| && !resources[from].Falsy?
       && !(resources[from].List? && FirstFalsyIn(resources[from].items, 0) >= 0) {
      FirstFalsyIsFirst(resources, from + 1);
    }
  }

  /** No value in `resources[from..to]`, top-level or array member, is falsy. */
  predicate NoFalsyBefore(resources: seq<Resource>, from: nat, to: nat) {
    forall k | from <= k < to && k < |resources| ::
      && !resources[k].Falsy?
      && (resources[k].List? ==> forall m | 0 <= m < |resources[k].items| :: !resources[k].items[m].Falsy?)
  }

  /** A flat list is also nested (it holds no arrays), yet it binds as one flat group. */
  lemma FlatWins(resources: seq<Resource>)
    requires FirstFalsy(resources, 0).None? && IsFlat(resources)
    ensures IsNested(resources)
    ensures Classify(resources).Ok? && |Classify(resources).value| == 1
    ensures var g := Classify(resources).value[0];
      |g| == |resources| && forall i | 0 <= i < |g| :: g[i] == BindEntry(i, resources[i].name)
  {
  }

  /** The resource list of a dispatch that binds only the named buffers. */
  function Buffers(names: seq<string>): (rs: seq<Resource>)
    ensures |rs| == |names| && IsFlat(rs)
    ensures forall i | 0 <= i < |rs| :: rs[i] == Buffer(names[i])
  {
    seq(|names|, i requires 0 <= i < |names| => Buffer(names[i]))
  }

  /** The bind group binding slot i to the i-th named buffer. */
  function Bindings(names: seq<string>): (g: seq<BindEntry>)
    ensures |g| == |names| && forall i | 0 <= i < |g| :: g[i] == BindEntry(i, names[i])
  {
    seq(|names|, i requires 0 <= i < |names| => BindEntry(i, names[i]))
  }

  lemma {:induction false} NoFalsyBuffer(resources: seq<Resource>, from: nat)
    requires IsFlat(resources)
    ensures FirstFalsy(resources, from).None?
    decreases |resources| - from
  {
    if from < |resources| {
      NoFalsyBuffer(resources, from + 1);
    }
  }

  /** A list of buffers is always accepted, as one group binding them in order. */
  lemma BuffersAccepted(names: seq<string>)
    ensures Classify(Buffers(names)) == Ok([Bindings(names)])
  {
    NoFalsyBuffer(Buffers(names), 0);
    FlatWins(Buffers(names));
    assert FlatGroup(Buffers(names)) == Bindings(names);
  }

  /**
   * Without falsy values, `computeDispatch` throws "Expected resources…"
   * exactly when some array entry holds a non-buffer.
   */
  lemma UnexpectedExactly(resources: seq<Resource>)
    requires FirstFalsy(resources, 0).None?
    ensures Classify(resources) == Err(UnexpectedResources) <==>
      exists i, j | 0 <= i < |resources| && resources[i].List? && 0 <= j < |resources[i].items| ::
        !resources[i].items[j].Buffer?
  {
    if !IsNested(resources) {
      var i, j :| 0 <= i < |resources| && resources[i].List? && 0 <= j < |resources[i].items|
                  && !resources[i].items[j].Buffer?;
      assert !resources[i].Buffer?;
    }
  }

  /** A nested list binds one group per entry, member j of entry i at binding j. */
  lemma NestedBindings(resources: seq<Resource>)
    requires FirstFalsy(resources, 0).None? && !IsFlat(resources) && IsNested(resources)
    ensures Classify(resources).Ok?
    ensures var gs := Classify(resources).value;
      && |gs| == |resources|
      && (forall i | 0 <= i < |gs| && !resources[i].List? :: gs[i] == [])
      && (forall i, j | 0 <= i < |gs| && resources[i].List? && 0 <= j < |resources[i].items| ::
            j < |gs[i]| && gs[i][j] == BindEntry(j, resources[i].items[j].name))
  {
  }

  /** The launch a `groupCount` gives: three direct counts, or the indirect buffer at offset 0. */
  function Launch(g: GroupCount): Workgroups {
    match g
    case Counts(x, y, z) => Direct(x, y, z)
    case IndirectArgs(b) => Indirect(b, 0)
  }

  // ---------------------------------------------------------------------------
  // Timestamp indices
  // ---------------------------------------------------------------------------

  /** The first timestamp indices of the frame's timed dispatches of `name`, in order. */
  function IndicesOf(log: seq<string>, name: string): seq<nat> {
    if log == [] then []
    else IndicesOf(log[..|log| - 1], name) + (if log[|log| - 1] == name then [2 * (|log| - 1)] else [])
  }

  /** The names map after a timed dispatch of `shader` at timestamp `count`. */
  function RecordTimeStamp(names: map<string, seq<nat>>, count: nat, shader: string): (r: map<string, seq<nat>>)
    ensures r.Keys == names.Keys + {shader}
  {
    if shader in names then names[shader := names[shader] + [count]] else names[shader := [count]]
  }

  /**
   * The timestamp bookkeeping after the timed dispatches `log` of a frame:
   * two indices per dispatch, and each name maps to the indices of its dispatches.
   */
  ghost predicate Recorded(count: nat, names: map<string, seq<nat>>, log: seq<string>) {
    && count == 2 * |log|
    && (forall n :: n in names <==> n in log)
    && (forall n | n in names :: names[n] == IndicesOf(log, n))
  }

  lemma IndicesOfSnoc(log: seq<string>, shader: string, name: string)
    ensures IndicesOf(log + [shader], name) == IndicesOf(log, name) + (if shader == name then [2 * |log|] else [])
  {
    assert (log + [shader])[..|log|] == log;
  }

  lemma {:induction false} IndicesOfAbsent(log: seq<string>, name: string)
    requires name !in log
    ensures IndicesOf(log, name) == []
  {
    if log != [] {
      assert name !in log[..|log| - 1];
      IndicesOfAbsent(log[..|log| - 1], name);
    }
  }

  /** Timestamp index x is the first index of the frame's dispatch x/2, which was of `name`. */
  predicate TimedAt(log: seq<string>, name: string, x: int) {
    0 <= x && x % 2 == 0 && x / 2 < |log| && log[x / 2] == name
  }

  /** Index x is recorded under `name` exactly when x is even and dispatch x/2 was of `name`. */
  lemma {:induction false} IndicesOfMembers(log: seq<string>, name: string, x: int)
    ensures x in IndicesOf(log, name) <==> TimedAt(log, name, x)
  {
    if log != [] {
      var init := log[..|log| - 1];
      IndicesOfMembers(init, name, x);
      if 0 <= x && x % 2 == 0 && x / 2 < |init| {
        assert log[x / 2] == init[x / 2];
      }
    }
  }

  /** One timed dispatch keeps the bookkeeping consistent with the log. */
  lemma RecordStep(count: nat, names: map<string, seq<nat>>, log: seq<string>, shader: string)
    requires Recorded(count, names, log)
    ensures Recorded(count + 2, RecordTimeStamp(names, count, shader), log + [shader])
  {
    var names' := RecordTimeStamp(names, count, shader);
    forall n | n in names'
      ensures names'[n] == IndicesOf(log + [shader], n)
    {
      IndicesOfSnoc(log, shader, n);
      if n == shader && shader !in names {
        IndicesOfAbsent(log, shader);
      }
    }
  }

  /**
   * After k timed dispatches the count is 2k and the recorded indices are
   * exactly 0, 2, …, 2k−2, each under the name of its dispatch.
   */
  lemma TimeStampIndices(count: nat, names: map<string, seq<nat>>, log: seq<string>)
    requires Recorded(count, names, log)
    ensures count == 2 * |log|
    ensures forall n: string, x: nat | n in names && x in names[n] :: TimedAt(log, n, x)
    ensures forall i | 0 <= i < |log| :: log[i] in names && 2 * i in names[log[i]]
  {
    forall n: string, x: nat | n in names && x in names[n]
      ensures TimedAt(log, n, x)
    {
      assert names[n] == IndicesOf(log, n);
      IndicesOfMembers(log, n, x);
    }
    forall i | 0 <= i < |log|
      ensures log[i] in names && 2 * i in names[log[i]]
    {
      assert log[i] in log;
      IndicesOfMembers(log, log[i], 2 * i);
    }
  }

  // ---------------------------------------------------------------------------
  // Readbacks
  // ---------------------------------------------------------------------------

  /** A staging buffer's `mapState`: free, or waiting for a map to complete. */
  datatype MapState = Unmapped | Pending

  const MaxParticleCount: int := 1000000
  const MaxTimeStampCount: nat := 2048

  /** The byte size of the timestamp result buffer: two 8-byte stamps per query pair. */
  const TimeStampResultBytes: nat := MaxTimeStampCount * 2 * 8

  /** The copies `endFrame` records for the staging buffers that are free. */
  function ReadbackCommands(countFree: bool, freeCountFree: bool, stampsFree: bool, stampCount: nat): seq<Command> {
    (if countFree then [CopyBuffer("particleCountBuffer", "particleCountStagingBuffer", 4)] else [])
    + (if freeCountFree then [CopyBuffer("particleFreeIndicesBuffer", "particleFreeCountStagingBuffer", 4)] else [])
    + (if stampsFree then
         [ResolveQueries(stampCount), CopyBuffer("timeStampResolveBuffer", "timeStampResultBuffer", TimeStampResultBytes)]
       else [])
  }

  /** Each staging buffer is written by the frame's readback copies exactly when it was free. */
  lemma ReadbackGated(countFree: bool, freeCountFree: bool, stampsFree: bool, stampCount: nat)
    ensures var cmds := ReadbackCommands(countFree, freeCountFree, stampsFree, stampCount);
      && (countFree <==> exists c | c in cmds :: c.CopyBuffer? && c.destination == "particleCountStagingBuffer")
      && (freeCountFree <==> exists c | c in cmds :: c.CopyBuffer? && c.destination == "particleFreeCountStagingBuffer")
      && (stampsFree <==> exists c | c in cmds :: c.CopyBuffer? && c.destination == "timeStampResultBuffer")
      && (stampsFree <==> exists c | c in cmds :: c.ResolveQueries?)
  {
    var cmds := ReadbackCommands(countFree, freeCountFree, stampsFree, stampCount);
    if countFree {
      assert cmds[0] == CopyBuffer("particleCountBuffer", "particleCountStagingBuffer", 4);
    }
    if freeCountFree {
      var c := CopyBuffer("particleFreeIndicesBuffer", "particleFreeCountStagingBuffer", 4);
      assert c in cmds;
    }
    if stampsFree {
      var c := CopyBuffer("timeStampResolveBuffer", "timeStampResultBuffer", TimeStampResultBytes);
      assert c in cmds && ResolveQueries(stampCount) in cmds;
    }
  }

  /** The sum over a dispatch's first indices i of `times[i+1] - times[i]`. */
  function SpanTotal(times: seq<int>, indices: seq<nat>): int
    requires forall k | 0 <= k < |indices| :: indices[k] + 1 < |times|
  {
    if indices == [] then 0
    else SpanTotal(times, indices[..|indices| - 1]) + (times[indices[|indices| - 1] + 1] - times[indices[|indices| - 1]])
  }

  /** The new timing map: 1% of each current total plus 99% of the previous average, if there is one. */
  function Smooth(current: map<string, real>, previous: map<string, real>): (r: map<string, real>)
    ensures r.Keys == current.Keys
  {
    map n | n in current :: if n in previous then 0.01 * current[n] + 0.99 * previous[n] else current[n]
  }

  /** A smoothed average lies between the current total and the previous average. */
  lemma SmoothBetween(current: map<string, real>, previous: map<string, real>, n: string)
    requires n in current
    ensures n !in previous ==> Smooth(current, previous)[n] == current[n]
    ensures n in previous ==>
      var (lo, hi) := if current[n] <= previous[n] then (current[n], previous[n]) else (previous[n], current[n]);
      lo <= Smooth(current, previous)[n] <= hi
  {
  }

  /** Whether every recorded index and its successor address `times`. */
  predicate CoveredBy(names: map<string, seq<nat>>, times: seq<int>) {
    forall n, k | n in names && 0 <= k < |names[n]| :: names[n][k] + 1 < |times|
  }

  // ---------------------------------------------------------------------------
  // The context
  // ---------------------------------------------------------------------------

  /** The fields of the GPU context that the frame loop reads and updates. */
  class Context {
    const canTimeStamp: bool
    var encoderOpen: bool
    var commands: seq<Command>
    var submitted: seq<seq<Command>>
    var frameTimeStampCount: nat
    var frameTimeStampNames: map<string, seq<nat>>
    /** The shader names of this frame's timed dispatches, in order. */
    ghost var frameDispatches: seq<string>
    var movingAverageTimeStamps: map<string, real>
    var timingStatsDirty: bool
    var particleCountDirty: bool
    var particleCount: int
    var particleFreeCount: int
    var particleCountStaging: MapState
    var particleFreeCountStaging: MapState
    var timeStampResult: MapState

    ghost predicate Valid()
      reads this`frameTimeStampCount, this`frameTimeStampNames, this`frameDispatches
    {
      && Recorded(frameTimeStampCount, frameTimeStampNames, frameDispatches)
      && (!canTimeStamp ==> frameDispatches == [])
    }

    /** The context after `init`; whether timestamps are supported is the adapter's answer. */
    constructor (canTimeStamp: bool)
      ensures Valid() && this.canTimeStamp == canTimeStamp
      ensures !encoderOpen && commands == [] && submitted == []
      ensures frameTimeStampCount == 0 && frameTimeStampNames == map[] && frameDispatches == []
      ensures movingAverageTimeStamps == map[] && !timingStatsDirty && !particleCountDirty
      ensures particleCount == 0 && particleFreeCount == 0
      ensures particleCountStaging == Unmapped && particleFreeCountStaging == Unmapped && timeStampResult == Unmapped
    {
      this.canTimeStamp := canTimeStamp;
      encoderOpen := false;
      commands := [];
      submitted := [];
      frameTimeStampCount := 0;
      frameTimeStampNames := map[];
      frameDispatches := [];
      movingAverageTimeStamps := map[];
      timingStatsDirty := false;
      particleCountDirty := false;
      particleCount := 0;
      particleFreeCount := 0;
      particleCountStaging := Unmapped;
      particleFreeCountStaging := Unmapped;
      timeStampResult := Unmapped;
    }

    /** `beginFrame`: forgets the frame's timestamps and opens a current encoder. */
    method BeginFrame()
      modifies this`frameTimeStampCount, this`frameTimeStampNames, this`frameDispatches
      modifies this`encoderOpen, this`commands
      ensures Valid() && encoderOpen && commands == []
      ensures frameTimeStampCount == 0 && frameTimeStampNames == map[] && frameDispatches == []
    {
      frameTimeStampCount := 0;
      frameTimeStampNames := map[];
      frameDispatches := [];
      encoderOpen := true;
      commands := [];
    }

    /** `encoder.clearBuffer`: zero the whole buffer. */
    method Clear(buffer: string)
      requires encoderOpen
      modifies this`commands
      ensures commands == old(commands) + [ClearBuffer(buffer)]
    {
      commands := commands + [ClearBuffer(buffer)];
    }

    /** `encoder.copyBufferToBuffer` from offset 0 to offset 0. */
    method Copy(source: string, destination: string, bytes: nat)
      requires encoderOpen
      modifies this`commands
      ensures commands == old(commands) + [CopyBuffer(source, destination, bytes)]
    {
      commands := commands + [CopyBuffer(source, destination, bytes)];
    }

    /**
     * `computeDispatch`: validates and classifies the resources, records a
     * compute pass with its bind groups and launch, and, with timestamps,
     * records the pass's first timestamp index under the shader's name.
     */
    method ComputeDispatch(shaderName: string, resources: seq<Resource>, groupCount: GroupCount)
      returns (r: Outcome<DispatchError>)
      requires Valid() && encoderOpen
      modifies this`commands, this`frameTimeStampCount, this`frameTimeStampNames, this`frameDispatches
      ensures Valid()
      ensures Classify(resources).Err? ==>
        && r == Fail(Classify(resources).error)
        && commands == old(commands) && frameTimeStampCount == old(frameTimeStampCount)
        && frameTimeStampNames == old(frameTimeStampNames) && frameDispatches == old(frameDispatches)
      ensures Classify(resources).Ok? ==>
        && r == Pass
        && commands == old(commands) + [ComputePass(shaderName, Classify(resources).value, Launch(groupCount),
                                                    if canTimeStamp then Some(old(frameTimeStampCount)) else None)]
        && (canTimeStamp ==>
              && frameTimeStampCount == old(frameTimeStampCount) + 2
              && frameTimeStampNames == RecordTimeStamp(old(frameTimeStampNames), old(frameTimeStampCount), shaderName)
              && frameDispatches == old(frameDispatches) + [shaderName])
        && (!canTimeStamp ==>
              && frameTimeStampCount == old(frameTimeStampCount) && frameTimeStampNames == old(frameTimeStampNames)
              && frameDispatches == old(frameDispatches))
    {
      var err, isSimpleFlatBufferList, isNestedBufferList := ScanResources(resources);
      if err.Some? {
        return Fail(err.value);
      }
      if !isSimpleFlatBufferList && !isNestedBufferList {
        return Fail(UnexpectedResources);
      }
      var entries := BuildGroups(resources, isSimpleFlatBufferList);

      var firstTimeStamp := if canTimeStamp then Some(frameTimeStampCount) else None;
      commands := commands + [ComputePass(shaderName, entries, Launch(groupCount), firstTimeStamp)];
      if canTimeStamp {
        RecordStep(frameTimeStampCount, frameTimeStampNames, frameDispatches, shaderName);
        if shaderName in frameTimeStampNames {
          frameTimeStampNames := frameTimeStampNames[shaderName := frameTimeStampNames[shaderName] + [frameTimeStampCount]];
        } else {
          frameTimeStampNames := frameTimeStampNames[shaderName := [frameTimeStampCount]];
        }
        frameDispatches := frameDispatches + [shaderName];
        frameTimeStampCount := frameTimeStampCount + 2;
      }
      return Pass;
    }

    /**
     * `endFrame`: records the copies into the free staging buffers, submits
     * the encoder's commands, starts the maps of the buffers it copied into,
     * and drops the encoder.
     */
    method EndFrame()
      requires encoderOpen
      modifies this`encoderOpen, this`commands, this`submitted
      modifies this`particleCountStaging, this`particleFreeCountStaging, this`timeStampResult
      ensures !encoderOpen && commands == []
      ensures submitted == old(submitted) + [old(commands) + ReadbackCommands(
        old(particleCountStaging) == Unmapped, old(particleFreeCountStaging) == Unmapped,
        canTimeStamp && old(timeStampResult) == Unmapped, frameTimeStampCount)]
      // A busy buffer is left as it was: its earlier map is still pending.
      ensures particleCountStaging == Pending && particleFreeCountStaging == Pending
      ensures timeStampResult == if canTimeStamp then Pending else old(timeStampResult)
    {
      var canReadbackParticleCount := particleCountStaging == Unmapped;
      var canReadbackParticleFreeCount := particleFreeCountStaging == Unmapped;
      var canReadbackTimeStamps := canTimeStamp && timeStampResult == Unmapped;

      if canReadbackParticleCount {
        commands := commands + [CopyBuffer("particleCountBuffer", "particleCountStagingBuffer", 4)];
      }
      if canReadbackParticleFreeCount {
        commands := commands + [CopyBuffer("particleFreeIndicesBuffer", "particleFreeCountStagingBuffer", 4)];
      }
      if canReadbackTimeStamps {
        commands := commands + [ResolveQueries(frameTimeStampCount)];
        commands := commands + [CopyBuffer("timeStampResolveBuffer", "timeStampResultBuffer", TimeStampResultBytes)];
      }
      assert commands == old(commands) + ReadbackCommands(
        canReadbackParticleCount, canReadbackParticleFreeCount, canReadbackTimeStamps, frameTimeStampCount);
      submitted := submitted + [commands];

      if canReadbackParticleCount {
        particleCountStaging := Pending;
      }
      if canReadbackParticleFreeCount {
        particleFreeCountStaging := Pending;
      }
      if canReadbackTimeStamps {
        timeStampResult := Pending;
      }
      encoderOpen := false;
      commands := [];
    }

    /** The particle-count map completes: the count read back, clamped to the maximum. */
    method CompleteParticleCountReadback(read: int)
      requires particleCountStaging == Pending
      modifies this`particleCount, this`particleCountStaging, this`particleCountDirty
      ensures particleCount <= MaxParticleCount
      ensures particleCount == read || (particleCount == MaxParticleCount && read > MaxParticleCount)
      ensures particleCountStaging == Unmapped && particleCountDirty
    {
      particleCount := read;
      particleCount := if MaxParticleCount <= particleCount then MaxParticleCount else particleCount;
      particleCountStaging := Unmapped;
      particleCountDirty := true;
    }

    /** The free-count map completes: the value read back, not clamped. */
    method CompleteParticleFreeCountReadback(read: int)
      requires particleFreeCountStaging == Pending
      modifies this`particleFreeCount, this`particleFreeCountStaging, this`particleCountDirty
      ensures particleFreeCount == read && particleFreeCountStaging == Unmapped && particleCountDirty
    {
      particleFreeCount := read;
      particleFreeCountStaging := Unmapped;
      particleCountDirty := true;
    }

    /**
     * The timestamp map completes. The per-name totals use the names recorded
     * by the frame current at completion; names seen before are smoothed and
     * names not timed in that frame drop out.
     */
    method CompleteTimeStampReadback(times: seq<int>)
      requires timeStampResult == Pending
      requires CoveredBy(frameTimeStampNames, times)
      modifies this`movingAverageTimeStamps, this`timeStampResult, this`timingStatsDirty
      ensures movingAverageTimeStamps.Keys == frameTimeStampNames.Keys
      ensures forall n | n in movingAverageTimeStamps ::
        var total := SpanTotal(times, frameTimeStampNames[n]) as real;
        movingAverageTimeStamps[n] ==
          if n in old(movingAverageTimeStamps) then 0.01 * total + 0.99 * old(movingAverageTimeStamps)[n] else total
      ensures timeStampResult == Unmapped && timingStatsDirty
    {
      var totals := map n | n in frameTimeStampNames :: SpanTotal(times, frameTimeStampNames[n]) as real;
      movingAverageTimeStamps := Smooth(totals, movingAverageTimeStamps);
      timeStampResult := Unmapped;
      timingStatsDirty := true;
    }
  }

  /**
   * The validating scan of `computeDispatch`: the first falsy value, and
   * otherwise the two classification flags.
   */
  method ScanResources(resources: seq<Resource>) returns (err: Option<DispatchError>, flat: bool, nested: bool)
    ensures err == FirstFalsy(resources, 0)
    ensures err.None? ==> flat == IsFlat(resources) && nested == IsNested(resources)
  {
    err, flat, nested := None, true, true;
    for i := 0 to |resources|
      invariant FirstFalsy(resources, 0) == FirstFalsy(resources, i)
      invariant flat == forall k | 0 <= k < i :: resources[k].Buffer?
      invariant nested == forall k, m | 0 <= k < i && resources[k].List? && 0 <= m < |resources[k].items| ::
        resources[k].items[m].Buffer?
    {
      if resources[i].Falsy? {
        return Some(FalsyResource(i)), flat, nested;
      }
      if !resources[i].Buffer? {
        flat := false;
      }
      if resources[i].List? {
        var items := resources[i].items;
        for j := 0 to |items|
          invariant forall m | 0 <= m < j :: !items[m].Falsy?
          invariant nested == (
            && (forall k, m | 0 <= k < i && resources[k].List? && 0 <= m < |resources[k].items| ::
                  resources[k].items[m].Buffer?)
            && (forall m | 0 <= m < j :: items[m].Buffer?))
        {
          if items[j].Falsy? {
            assert FirstFalsyIn(items, 0) == j;
            return Some(FalsyMember(i, j)), flat, nested;
          }
          if !items[j].Buffer? {
            nested := false;
          }
        }
        assert FirstFalsyIn(items, 0) == -1;
      }
    }
  }

  /** The bind-group entries of a validated list, built by the two loops of `computeDispatch`. */
  method BuildGroups(resources: seq<Resource>, flat: bool) returns (entries: seq<seq<BindEntry>>)
    requires FirstFalsy(resources, 0).None? && flat == IsFlat(resources)
    requires flat || IsNested(resources)
    ensures Classify(resources) == Ok(entries)
  {
    if flat {
      var group: seq<BindEntry> := [];
      for i := 0 to |resources|
        invariant |group| == i && forall k | 0 <= k < i :: group[k] == BindEntry(k, resources[k].name)
      {
        group := group + [BindEntry(i, resources[i].name)];
      }
      assert group == FlatGroup(resources);
      entries := [group];
    } else {
      entries := [];
      for i := 0 to |resources|
        invariant |entries| == i && forall k | 0 <= k < i :: entries[k] == MemberGroup(resources[k])
      {
        var thisGroupEntries: seq<BindEntry> := [];
        if resources[i].List? {
          var items := resources[i].items;
          for j := 0 to |items|
            invariant |thisGroupEntries| == j
            invariant forall m | 0 <= m < j :: thisGroupEntries[m] == BindEntry(m, items[m].name)
          {
            thisGroupEntries := thisGroupEntries + [BindEntry(j, items[j].name)];
          }
        }
        assert thisGroupEntries == MemberGroup(resources[i]);
        entries := entries + [thisGroupEntries];
      }
      assert entries == NestedGroups(resources);
    }
  }
}
