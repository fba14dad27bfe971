# PBMPM host model

A Dafny model of the host-side JavaScript of the electronicarts/pbmpm WebGPU
particle simulation (position-based material point method). The GPU kernels
do the physics. The host code modelled here does the following:

- It lays out and packs the uniform and storage buffers the kernels read
  (`BufferFactory`).
- It regulates how many fixed simulation substeps each rendered frame runs
  (`time.js`).
- It records the per-frame command stream: grid clears, emission,
  bucketing and the particle-to-grid passes with their rotating grids
  (`sim.js`, `gpu.js`).
- It validates and binds dispatch resources, and keeps the timestamp and
  readback bookkeeping (`gpu.js`).
- It preprocesses the WGSL shaders (`//!insert` and include-once
  `//!include`, in `shader.js`).
- It keeps the shape editor's state (`ui.js`), loads and cycles scenes
  (`main.js`), and builds the render constants (`render.js`).

## Modules

| file | module | models |
|---|---|---|
| `wrappers.dfy` | `Wrappers` | `Option`, `Result` and `Outcome`, which stand for a call that may throw |
| `text.dfy` | `Text` | the JavaScript string operations the code relies on: decimal formatting, `Number`, `indexOf`/`search`, `split`, `trim`, `replace` |
| `scene.dfy` | `Scene` | the shape objects of a scene |
| `buffer_factory.dfy` | `BufferFactory` | class `Factory`: adding fields with padding, compiling, the struct text, and packing value layers into 32-bit words |
| `time.dfy` | `Time` | class `TimeState`, the regulator record, plus the pure step `Regulate` and its invariants |
| `gpu.js` → `gpu.dfy` | `Gpu` | `divUp`; class `Context`: dispatch classification, timestamp indices, end-of-frame readback gating and the readback completions |
| `shader.dfy` | `Shader` | class `Preprocessor`: the insert and include loops, with `fetch` replaced by a map from file name to text |
| `sim.dfy` | `Sim` | the two layouts, the insert handlers, bucket sizing, shape records, the constants buffer, and class `Simulator`, whose `Update` records one frame's commands |
| `render.dfy` | `Render` | the `RenderConstants` layout and its buffer |
| `ui.dfy` | `Ui` | class `Editor`: the shape set, hover, grab, drag, delete, duplicate and name allocation |
| `host.dfy` | `Host` | scene loading and rescaling, the scene cookie, scene cycling, the loading spinner and the reset trigger (`main.js`) |

### Representation choices

- **Words.** A packed buffer is a sequence of `Word`s. A word is a float (as a
  real) or the 32 raw bits an `Int32Array` view stores for an integer field.
  Integer fields are therefore stored modulo 2^32, and unset words are zero.
- **Values.** A value handed to the factory is `Undefined`, a number or a
  vector.
- **Command trace.** The GPU encoder is a trace of abstract commands:
  - `ClearBuffer`;
  - `CopyBuffer`;
  - `ResolveQueries`;
  - `ComputePass`, which carries the shader name, its bind groups, its
    launch and its first timestamp index.

  `Sim.Simulator.Update` states the trace one frame appends, with the
  timestamp indices dropped (`Untimed`). The timestamp bookkeeping is stated
  separately by `Gpu.Context.ComputeDispatch` and `Gpu.TimeStampIndices`.
- **Numbers read from text.** `Number(s)` (`Text.ToNumber`) gives a `JsNumber`: `NaN`, a finite real, or an infinity. It follows the JavaScript grammar of string numeric literals: surrounding white space, a sign, decimal digits with a fraction and an exponent, `Infinity`, and `0x`/`0o`/`0b` literals.
- **Object identity.** JavaScript compares shapes by reference. The editor
  therefore keeps every shape object under a handle that is never reused. The
  shape set is an insertion-ordered sequence of distinct handles.

## Model

| member | source | states |
|---|---|---|
| `Text.NatToString` | src/sim.js:113 | the decimal text of a number is non-empty, all digits, and has no leading zero |
| `Text.NumberOfNatToString` | src/main.js:524-543 | `Number` of the decimal text of `n` is exactly `n` (the scene index written to the cookie reads back) |
| `Text.NumberOfDigits` | src/main.js:543 | `Number` of a run of decimal digits is its decimal value |
| `Text.NumberWithExponent` | src/main.js:543 | digits, `e`, digits read as the mantissa times ten to the exponent (`1e1` is 10) |
| `Text.NumberNonDecimal` | src/main.js:543 | `0x`, `0o` and `0b` literals read as their value in base 16, 8 and 2 |
| `Text.NumberPadded` | src/main.js:543 | white space around a literal is ignored (`" 7"` is 7) |
| `Text.NumberSigned` | src/main.js:543 | `+d` reads as `d`'s value and `-d` as its negation |
| `Text.NumberSign` | src/main.js:543 | a leading minus gives the negation of what a leading plus gives, for every rest |
| `Text.NumberZeroFraction` | src/main.js:543 | zeros after the decimal point change nothing (`7.0` is 7) |
| `Text.NumberOfWord` | src/main.js:543 | a text whose first character is no space, digit, sign, `.` or `I` is `NaN` |
| `Text.TrailingZeros` | src/main.js:543 | appending `k` zeros multiplies the digits' value by `10^k` |
| `Text.DigitRunExact` | src/main.js:543 | the digit run of a text is exactly the length of its leading digits |
| `Text.Replace` | src/shader.js:98 | `replace` with a string pattern is the literal splice when the replacement holds no `$`, and leaves a text without the pattern unchanged |
| `Text.Substitute` | src/shader.js:98 | a replacement without `$` is inserted as it is |
| `Text.NatToStringInjective` | src/sim.js:113 | distinct numbers print as distinct texts |
| `Text.IndexOf` | src/shader.js:84 | `search` gives -1 exactly when the pattern occurs nowhere; otherwise it gives the first position where it occurs |
| `Text.Split` | src/main.js:537 | `split` yields at least one part, and no part contains the separator |
| `Text.JoinSplit` | src/main.js:537-539 | joining the parts of a split with the separator gives the string back |
| `Text.FirstLine` | src/shader.js:90 | the first line is a prefix with no line feed, ended by the first line feed or the end of the text |
| `Text.FirstLineSplit` | src/shader.js:90 | `FirstLine(s)` is `s.split('\n')[0]` |
| `Text.FirstLineSuffix` | src/shader.js:91 | dropping `k` characters of the first line drops them from the line (the directive argument is the rest of its line) |
| `Text.TrimStart` | src/shader.js:91 | `trim`'s leading part: only JavaScript white space or line terminators are removed, and the rest starts with neither |
| `Text.TrimEnd` | src/shader.js:91 | `trim`'s trailing part: only JavaScript white space or line terminators are removed, and the rest ends with neither |
| `Scene.OrZero` | src/sim.js:330-332 | `x ? x : 0`: a present non-zero value is kept; an absent value or zero gives 0 |
| `BufferFactory.ParseType` | src/buffer_factory.js:261-276 | a type name gives the type whose name it is; any other name throws `UnsupportedType`, and then no type has that name |
| `BufferFactory.ParseTypeName` | src/buffer_factory.js:261-295 | every type's name parses back to that type |
| `BufferFactory.AlignmentIsPowerOfTwoCover` | src/buffer_factory.js:280-295 | each alignment is 1, 2 or 4 words: the least power of two that holds the type |
| `BufferFactory.PaddingBefore` | src/buffer_factory.js:41-48 | the code's padding, `totalCount % alignment`, is less than the alignment and is 0 before scalars |
| `BufferFactory.PaddingAligns` | src/buffer_factory.js:41-48 | that padding aligns every type but `vec3f`, and aligns `vec3f` exactly when the total is 0 or 2 modulo 4 (both directions) |
| `BufferFactory.Vec3fUnderPadded` | src/buffer_factory.js:41-48 | after 1 (or 3) words, a `vec3f` gets 1 (or 3) padding words and starts misaligned (see Findings) |
| `BufferFactory.AlignedPadding` | src/buffer_factory.js:280-295 | the padding the alignment table asks for is less than the alignment |
| `BufferFactory.AlignedPaddingLeast` | src/buffer_factory.js:280-295 | that padding is the least number of words that aligns the field |
| `BufferFactory.PaddingAgreesWhenAligned` | src/buffer_factory.js:41-48 | the code's padding equals the aligned padding for every type but `vec3f`, and for `vec3f` after 0 or 2 words modulo 4 |
| `BufferFactory.GetSize` | src/buffer_factory.js:261-276 | `getSize` throws exactly for unknown names; otherwise it gives the slot count of the type |
| `BufferFactory.GetAlignment` | src/buffer_factory.js:280-295 | `getAlignment` throws exactly for the same names; otherwise it gives the alignment of the type |
| `BufferFactory.RoundUp16` | src/buffer_factory.js:66-70 | `Math.ceil(n/16)*16` is the least multiple of 16 that is at least `n` |
| `BufferFactory.Int32Bits` | src/buffer_factory.js:144-157 | the bits an `Int32Array` stores are below 2^32 and congruent modulo 2^32 to the value truncated toward zero |
| `BufferFactory.Int32BitsNat` | src/buffer_factory.js:144-150 | a non-negative integer is stored as its low 32 bits |
| `BufferFactory.BackToBack` | src/buffer_factory.js:50-58 | fields placed back to back from word 0 form a layout |
| `BufferFactory.BackToBackAfter` | src/buffer_factory.js:50-58 | fields placed back to back after a layout extend it |
| `BufferFactory.AppendToLayout` | src/buffer_factory.js:50-58 | a field pushed at `totalCount` extends the layout, whose end moves on by the field's slot count |
| `BufferFactory.SingleLayerComplete` | src/buffer_factory.js:209-215 | a record that gives every non-padding field a value passes validation |
| `BufferFactory.FieldWithinEnd` | src/buffer_factory.js:133 | every field of a layout lies inside the `totalCount`-word array |
| `BufferFactory.SameShapeLayout` | src/buffer_factory.js:103-117 | binding values of the right shape never moves a field |
| `BufferFactory.Paddings` | src/buffer_factory.js:41-48 | the padding loop adds exactly `count` fields |
| `BufferFactory.LastBindingSingle` | src/buffer_factory.js:201-207 | with one layer, a field takes that layer's value for its name, or stays `undefined` |
| `BufferFactory.LastBindingTwo` | src/buffer_factory.js:108-117 | with two layers, the second decides for its own keys and the first decides for the rest |
| `BufferFactory.LastBindingThree` | src/buffer_factory.js:108-117 | with three layers, the last layer that names the key decides, even with `undefined` |
| `BufferFactory.LayersComplete` | src/buffer_factory.js:119-125 | when every non-padding field ends up set, validation passes |
| `BufferFactory.LayersIncomplete` | src/buffer_factory.js:119-125 | a non-padding field that no layer sets makes validation fail |
| `BufferFactory.ResolveBinds` | src/buffer_factory.js:103-117 | after clearing and applying the layers, field `i` keeps its name, type and place and holds the last binding of its name |
| `BufferFactory.ResolveKeepsLayout` | src/buffer_factory.js:103-117 | resolving values keeps a layout a layout with the same end, and changes values only |
| `BufferFactory.UnsetFrom` | src/buffer_factory.js:119-125 | the validation scan finds the first unset field whose name lacks `padding`, or -1 when there is none |
| `BufferFactory.Encode` | src/buffer_factory.js:144-167 | a set field writes exactly its slot count of words |
| `BufferFactory.WordAtStep` | src/buffer_factory.js:135-168 | writing one more field changes exactly the words it covers, and only if it is set |
| `BufferFactory.WordAtBeyondEnd` | src/buffer_factory.js:133 | the words past the last field (the uniform round-up) stay zero |
| `BufferFactory.WordAtField` | src/buffer_factory.js:135-168 | word `offset + j` of a field holds word `j` of its encoding when it is set, and zero otherwise |
| `BufferFactory.ResolvedWord` | src/buffer_factory.js:103-168 | word `offset + j` of a packed field holds word `j` of the encoding of the last layer's value for it (zero if unset) |
| `BufferFactory.ResolveOneFits` | src/buffer_factory.js:201-207 | each storage record, bound alone, keeps the layout |
| `BufferFactory.PackRecordsSnoc` | src/buffer_factory.js:192-251 | packing one more record appends that record's pack, or yields its error |
| `BufferFactory.PackRecordsLength` | src/buffer_factory.js:186-190 | a storage pack holds `totalCount` words per record |
| `BufferFactory.PackRecordsSameShape` | src/buffer_factory.js:196-199 | values left over from an earlier build do not affect a storage pack (values are reset per record) |
| `BufferFactory.PackRecordsPrefix` | src/buffer_factory.js:192-251 | a successful pack begins with the pack of any prefix of the records |
| `BufferFactory.PackRecordsStride` | src/buffer_factory.js:194 | record `i` occupies words `[i·totalCount, (i+1)·totalCount)`; word `k` of it is word `k` of that record packed alone |
| `BufferFactory.PackWord` | src/buffer_factory.js:133-168 | a successful uniform pack has `totalCount` words, each the word the fields put there |
| `BufferFactory.PackRecordsLast` | src/buffer_factory.js:192-251 | a successful pack is the pack of all records but the last, followed by the last record's words |
| `BufferFactory.PackRecordsFails` | src/buffer_factory.js:209-215 | a storage pack fails exactly when some record leaves a non-padding field unset |
| `BufferFactory.PackRecordsPrefixErr` | src/buffer_factory.js:209-215 | once a record fails, the whole pack fails with that record's error |
| `BufferFactory.WriteField` | src/buffer_factory.js:144-167 | writing a set field puts its encoding at its offset and leaves every other word alone |
| `BufferFactory.Factory.constructor` | src/buffer_factory.js:21-29 | a new factory is empty, not compiled, with no padding and a total of 0 |
| `BufferFactory.Factory.Add` | src/buffer_factory.js:34-59 | an unknown type throws with nothing changed; otherwise the method appends `totalCount % alignment` fields `padding<n>`, then the field at the new total, and the total grows by the padding plus the size |
| `BufferFactory.Factory.AppendField` | src/buffer_factory.js:50-58 | the push appends the field and moves the total on by its slot count |
| `BufferFactory.Factory.AppendPadding` | src/buffer_factory.js:41-48 | the padding loop appends `count` f32 fields named from the current padding counter, one word each |
| `BufferFactory.Factory.Compile` | src/buffer_factory.js:62-73 | a uniform total is rounded up to a multiple of 16, a storage total is kept, and the factory is sealed |
| `BufferFactory.Factory.GetShaderText` | src/buffer_factory.js:76-88 | the struct text has one `name: type,` line per field, padding included |
| `BufferFactory.Factory.GetTotalSizeInWords` | src/buffer_factory.js:90-94 | gives the compiled total |
| `BufferFactory.Factory.ClearElementValues` | src/buffer_factory.js:103-106 | every field becomes `undefined` and nothing else changes |
| `BufferFactory.Factory.ApplyValueLayer` | src/buffer_factory.js:108-117 | every field whose name the layer has takes the layer's value; other keys are ignored |
| `BufferFactory.Factory.ApplyValueLayers` | src/buffer_factory.js:108-117 | the layers apply in order, each over the ones before |
| `BufferFactory.Factory.FindUnset` | src/buffer_factory.js:119-125 | the scan finds the first unset non-padding field |
| `BufferFactory.Factory.WriteValues` | src/buffer_factory.js:133-168 | the record's words receive the packed fields, and words outside the record are untouched |
| `BufferFactory.Factory.WriteUniform` | src/buffer_factory.js:127-170 | the zeroed `totalCount`-word array with every set field written is exactly the uniform pack of the fields |
| `BufferFactory.Factory.ConstructUniformBuffer` | src/buffer_factory.js:97-173 | the fields hold the resolved values, and the result is the pack of `totalCount` words, or the first unset field's error |
| `BufferFactory.Factory.ConstructStorageBuffer` | src/buffer_factory.js:175-256 | the result is the record-by-record pack of `totalCount` words each, or the first failing record's error |
| `BufferFactory.Factory.StoreRecord` | src/buffer_factory.js:192-251 | one iteration of the record loop either extends the packed prefix by record `i` or ends the pack with its error |
| `BufferFactory.Factory.PackRecord` | src/buffer_factory.js:196-250 | one record is cleared, bound, validated and written at its base; nothing is written when it fails |
| `BufferFactory.StorageStep` | src/buffer_factory.js:217-250 | record `i`'s words, written after the earlier records, extend the packed prefix |
| `BufferFactory.StorageFails` | src/buffer_factory.js:209-215 | a record with an unset field fails the pack with that field's error |
| `BufferFactory.AddAligned` | src/buffer_factory.js:34-59 | adding a field at an aligned total appends it with no padding |
| `Time.TimeState.constructor` | src/time.js:7-14 | the initial record: estimate 1000/60, ratio 1, cap 100, and everything else 0 |
| `Time.TimeState.DoTimeRegulation` | src/time.js:16-75 | the field-by-field update leaves the state, and returns the count, that the pure step `Regulate` gives; the counter stays in [0, 9] and the cap at 100 |
| `Time.TimeState.GetLastRenderTimeStep` | src/time.js:77-80 | the estimate, in seconds |
| `Time.TimeState.GetThrottlingRatio` | src/time.js:82-85 | the ratio of the current state |
| `Time.StepKeepsBounded` | src/time.js:36-49 | whatever the inputs, the over-budget counter stays in [0, 9] and the cap stays 100 |
| `Time.RestartFrame` | src/time.js:18-28 | on pause or reset the estimate goes back to the default 1000/60 ms, the counter to 0, the cap to 100, and the previous time to this frame's time stamp |
| `Time.RegulateFramesAbove` | src/time.js:30-49 | outside a pause or reset, the counter steps as `NextFramesAbove` says |
| `Time.FramesAboveMoves` | src/time.js:30-49 | the counter is unchanged below the estimate, becomes 0 between one and two estimates, and goes up by 1 above twice the estimate, wrapping from 9 to 0 |
| `Time.EstimateNeverGrows` | src/time.js:30-33 | between resets the estimate never grows, and it shrinks exactly when the delta is below it |
| `Time.SubstepsCapped` | src/time.js:69-72 | the returned count is at most the cap of 100 |
| `Time.PausedFrame` | src/time.js:57-61 | a paused frame returns 0 and empties the accumulator |
| `Time.ChargeLeavesRemainder` | src/time.js:55-64 | charging `floor(acc·rate/1000)` substeps leaves between 0 and one substep's worth of time |
| `Time.RunningFrame` | src/time.js:53-72 | a running frame returns the floor count clamped to the cap; the accumulator is charged for the unclamped count and ends in [0, 1000/simRate) |
| `Time.ThrottleTermBounds` | src/time.js:67 | `min(1, cap/substeps)` lies in (0, 1], including for 0 substeps, where the division gives +Infinity |
| `Time.RatioStaysInUnit` | src/time.js:67 | while time runs forward the ratio stays in (0, 1] |
| `Time.StepKeepsSettled` | src/time.js:16-75 | while time runs forward every frame keeps the counter, cap, accumulator and ratio invariants |
| `Gpu.DivUpIsCeiling` | src/gpu.js:30-33 | `divUp(n, d)` is the ceiling of `n/d`: the least group count whose threads cover `n` |
| `Gpu.FirstFalsyIn` | src/gpu.js:176-186 | the first falsy member of an array entry, or -1 |
| `Gpu.FirstFalsyIsFirst` | src/gpu.js:164-188 | the scan's error names a falsy value, top-level or member, before which every value is truthy |
| `Gpu.FlatWins` | src/gpu.js:162-202 | an all-buffer list is also "nested", yet it binds as one group with binding `i` holding resource `i` |
| `Gpu.Buffers` | src/sim.js:133 | a dispatch's list of named buffers is flat |
| `Gpu.Bindings` | src/gpu.js:197-201 | the flat group binds slot `i` to the `i`-th buffer |
| `Gpu.NoFalsyBuffer` | src/gpu.js:164-169 | a list of buffers has no falsy value |
| `Gpu.BuffersAccepted` | src/gpu.js:156-202 | a list of buffers is always accepted, as one group binding them in order |
| `Gpu.UnexpectedExactly` | src/gpu.js:190-193 | "Expected resources…" is thrown exactly when the list is neither flat nor nested |
| `Gpu.NestedBindings` | src/gpu.js:203-221 | a nested list binds one group per entry, member `j` at binding `j`; non-array entries give empty groups |
| `Gpu.RecordTimeStamp` | src/gpu.js:257-264 | recording a timed dispatch adds its shader's name to the names map |
| `Gpu.IndicesOfSnoc` | src/gpu.js:255-267 | one more timed dispatch appends its first index, `2·(dispatches so far)`, under its shader only |
| `Gpu.IndicesOfAbsent` | src/gpu.js:257-263 | a shader not dispatched this frame has no indices |
| `Gpu.IndicesOfMembers` | src/gpu.js:255-267 | index `x` is recorded under a name exactly when `x` is even and dispatch `x/2` was of that shader |
| `Gpu.RecordStep` | src/gpu.js:255-267 | one timed dispatch keeps the count and names consistent with the frame's dispatch log |
| `Gpu.TimeStampIndices` | src/gpu.js:255-267 | after `k` timed dispatches the count is `2k`, and the recorded indices are exactly 0, 2, …, 2k−2, each under its dispatch's shader |
| `Gpu.ReadbackGated` | src/gpu.js:111-130 | each staging buffer is copied into, and the queries are resolved, exactly when its buffer was free |
| `Gpu.Smooth` | src/gpu.js:408-416 | the new timing map has exactly the current frame's names |
| `Gpu.SmoothBetween` | src/gpu.js:408-414 | a new name takes its current total; a known name takes `0.01·total + 0.99·previous`, which lies between the two |
| `Gpu.Context.constructor` | src/gpu.js:9-26 | the initial context: no encoder, no timestamps, zero counts, staging buffers unmapped, flags clear |
| `Gpu.Context.BeginFrame` | src/gpu.js:102-107 | zeroes the timestamp count and names and opens an empty encoder |
| `Gpu.Context.Clear` | src/sim.js:139 | `clearBuffer` appends one clear command |
| `Gpu.Context.Copy` | src/sim.js:144 | `copyBufferToBuffer` appends one copy command |
| `Gpu.Context.ComputeDispatch` | src/gpu.js:156-268 | on a classification error nothing is recorded; otherwise one pass with the bind groups, the launch and (with timestamps) the current count is recorded, that index is appended under the shader's name, and the count grows by 2 |
| `Gpu.Context.EndFrame` | src/gpu.js:109-150 | submits the frame's commands followed by the readback copies of the staging buffers that were free, then drops the encoder; both particle staging buffers are then pending (a busy one stays pending), and so is the timestamp buffer when timestamps are on |
| `Gpu.Context.CompleteParticleCountReadback` | src/gpu.js:367-374 | the count read back is clamped to the maximum of 1000000; the buffer is unmapped and the stats are dirty |
| `Gpu.Context.CompleteParticleFreeCountReadback` | src/gpu.js:379-385 | the free count is taken as read, unclamped; the buffer is unmapped and the stats are dirty |
| `Gpu.Context.CompleteTimeStampReadback` | src/gpu.js:388-419 | the timing map becomes the per-name sums of `t[i+1] − t[i]` over the names current at completion, smoothed for names seen before; names not timed drop out |
| `Gpu.ScanResources` | src/gpu.js:162-188 | the validation loop finds the first falsy value or computes both list flags |
| `Gpu.BuildGroups` | src/gpu.js:195-221 | the two building loops produce exactly the classification's bind groups |
| `Shader.StatementCoversDirective` | src/shader.js:90 | the directive line starts with the whole directive |
| `Shader.ArgumentIsRestOfLine` | src/shader.js:91 | the argument is the rest of the directive line after one separator character |
| `Shader.StatementFoundFirst` | src/shader.js:90-98 | the first occurrence of the directive line is the line that was found, so `replace` rewrites that one |
| `Shader.SpliceStep` | src/shader.js:98 | `replace` swaps exactly the found line for the replacement, and a safe replacement leaves no directive before its end |
| `Shader.NoDirectiveBeforeEnd` | src/shader.js:84-98 | after the splice, no directive starts before the end of a safe replacement |
| `Shader.InsidePrefix` | src/shader.js:98 | text before the splice keeps its directive-free positions |
| `Shader.InsideReplacement` | src/shader.js:98 | a directive-free replacement adds no directive inside itself |
| `Shader.StraddlesStart` | src/shader.js:98 | a replacement that does not start with a tail of the directive creates none across its start |
| `Shader.ReachesLineFeed` | src/shader.js:98 | no directive can run across the line feed that ended the replaced line |
| `Shader.EmptyIsSafe` | src/shader.js:119 | deleting a repeated include is a safe replacement |
| `Shader.FewerUnseen` | src/shader.js:125-126 | taking up a new file leaves fewer files unseen, so the include recursion ends |
| `Shader.Preprocessor.constructor` | src/shader.js:25-32 | the files and handlers given, with an empty seen set |
| `Shader.Preprocessor.LoadShader` | src/shader.js:30-32 | each top-level shader starts with an empty seen set; a file the map lacks fails; a file with no directive is returned unchanged; a failing insert stage is the result; a file whose inserts leave no include yields the inserted text; a result holds no `//!include` |
| `Shader.Preprocessor.GetShaderText` | src/shader.js:135-140 | a file the map lacks fails with nothing seen; for a file in the map: no directive gives the file's text unchanged, a failing insert stage is the result with nothing seen, and inserts that leave no include give the inserted text; a result holds no `//!include`; the seen set only grows |
| `Shader.Preprocessor.Preprocess` | src/shader.js:77-132 | inserts first, then includes: a failing insert expansion is the result, with nothing seen; an inserted text without includes is the result; the result holds no `//!include`; text without directives is returned unchanged |
| `Shader.Preprocessor.ExpandInserts` | src/shader.js:79-99 | the loop's result is `InsertsExpanded` of its input |
| `Shader.InsertsExpanded` | src/shader.js:79-99 | the expansion holds no `//!insert`, or fails with a key that is not a handler; text without inserts is unchanged |
| `Shader.InsertSplice` | src/shader.js:84-98 | one splice keeps the text before the insert line, leaves no insert before the replacement's end, and leaves less text to scan |
| `Shader.InsertsStep` | src/shader.js:84-98 | one round of the loop: the expansion of the text equals the expansion of the spliced text |
| `Shader.InsertsKeepHead` | src/shader.js:79-99 | the expansion keeps the text before the first insert line |
| `Shader.FirstMissingKey` | src/shader.js:90-96 | when the first insert key has no handler, the expansion fails with exactly that key |
| `Shader.Preprocessor.ExpandIncludes` | src/shader.js:104-129 | the loop ends with no `//!include` left; the seen set only grows; each file is expanded at most once |
| `Shader.Preprocessor.IncludeFile` | src/shader.js:121-128 | a first include marks the file seen before fetching and preprocessing it; a file the map lacks fails |
| `Sim.EnumTextConcat` | src/sim.js:108-116 | the declarations of a concatenation are the two blocks of declarations one after the other |
| `Sim.EnumInsertHandler` | src/sim.js:108-116 | the loop builds one `const key = value;` line per entry, in key order |
| `Sim.AddSimConstantsHead` | src/sim.js:59-70 | the first nine fields land back to back at words 0–11, with no padding |
| `Sim.AddSimConstantsMiddle` | src/sim.js:71-76 | the material fields land at words 12–16 |
| `Sim.AddSimConstantsFrame` | src/sim.js:78-82 | friction, plasticity, mouse radius and shape count land at words 17–20 |
| `Sim.AddSimConstantsCounters` | src/sim.js:83-88 | the counters land at words 21–26 |
| `Sim.BuildSimConstants` | src/sim.js:57-90 | `SimConstants` is the 27-word layout with no padding, compiled to 32 words |
| `Sim.BuildSimShape` | src/sim.js:92-106 | `SimShape` is the 12-word storage layout, including the user field `padding` at word 11 |
| `Sim.AddSimShapeHead` | src/sim.js:94-99 | position, half size, radius, rotation and functionality land at words 0–6 |
| `Sim.AddSimShapeTail` | src/sim.js:100-105 | the type, emission fields and `padding` land at words 7–11 |
| `Sim.Init` | src/sim.js:53-125 | builds both factories and publishes the three enumerations and the two struct texts as insert handlers |
| `Sim.CeilDiv` | src/sim.js:198-199 | `Math.ceil(n/d)` is the least count whose buckets cover `n` cells |
| `Sim.ConstructBukkitSystem` | src/sim.js:197-264 | the bucket grid is ceil(x/6) × ceil(y/6), and each buffer has the byte size allocated for it |
| `Sim.BukkitsCoverGrid` | src/sim.js:198-199 | every grid cell lies in an existing bucket |
| `Sim.ConstantsLayout` | src/sim.js:57-90 | the `SimConstants` fields sit back to back from word 0 and end at word 27 |
| `Sim.ConstantsHeadLayout` | src/sim.js:59-76 | the first fourteen fields end at word 17 |
| `Sim.ShapeLayout` | src/sim.js:92-106 | the `SimShape` fields fill the 12-word record |
| `Sim.ShapeRecord` | src/sim.js:316-350 | exactly circles and boxes get a solver record |
| `Sim.SolverShapesAligned` | src/sim.js:316-350 | when every shape is a box or circle, record `i` belongs to shape `i` |
| `Sim.ShapeRecordFits` | src/sim.js:316-350 | each record's values have the shapes of the fields they name |
| `Sim.ShapeRecordComplete` | src/sim.js:316-350 | each record sets every field but `padding`, which validation exempts |
| `Sim.ShapeFieldsSet` | src/sim.js:323-348 | a record that sets the nine named fields leaves only the padding field to the exemption |
| `Sim.RecordsCompleteAppend` | src/sim.js:323-348 | pushing one more complete record keeps the list complete |
| `Sim.SolverShapesFit` | src/sim.js:312-350 | every list of records that `constructShapeBuffer` pushes fits the layout and passes validation |
| `Sim.ShapeBuffer` | src/sim.js:310-354 | the shape buffer never fails |
| `Sim.ShapeBufferPacks` | src/sim.js:353 | the storage pack of the solver records succeeds |
| `Sim.ShapeRecordPosition` | src/sim.js:318-328 | the position is in cells with `y` flipped to `gridSize.y − y/divisor`; the type is the shape's; there is no `padding` key |
| `Sim.ShapeRecordExtent` | src/sim.js:323-341 | a circle has its radius in cells and half size [0,0]; a box has its half size in cells and radius 0 |
| `Sim.ShapePlacementWords` | src/sim.js:318-328 | the record's words 0, 1 and 7 hold the flipped position and the type |
| `Sim.ShapeExtentWords` | src/sim.js:326-342 | the record's word 4 holds the radius (0 for a box), and padding word 11 stays zero |
| `Sim.ShapeBufferRecord` | src/sim.js:310-354 | word `k` of record `i` in the buffer is word `k` of shape `i`'s record |
| `Sim.ShapeBufferWords` | src/sim.js:310-354 | record `i` of the buffer holds shape `i`'s flipped position, radius, type and a zero padding word |
| `Sim.ShapeBufferPlacement` | src/sim.js:318-324 | record `i`'s first two words are shape `i`'s position in cells, with `y` flipped |
| `Sim.ShapeBufferExtent` | src/sim.js:325-342 | record `i`'s radius, type and padding words |
| `Sim.MouseActivation` | src/sim.js:268-272 | 0 unless the mouse is down; otherwise `500/simRate · gridX/128` |
| `Sim.DirectVector` | src/sim.js:293-294 | the mouse position and velocity are two-element vectors |
| `Sim.DirectValuesSet` | src/sim.js:290-305 | exactly the fourteen keys of `setDirectlyValues` are set, none to `undefined` |
| `Sim.UniformBinding` | src/sim.js:307 | a field takes the direct value if there is one, else the inputs' value, else `undefined` (the context layer names no field) |
| `Sim.ConstantsTypes` | src/sim.js:57-90 | the mouse fields are `vec2f`, and every other field but `gridSize` is a scalar |
| `Sim.DirectLayerFits` | src/sim.js:290-305 | the direct values have the shapes of their fields |
| `Sim.DirectEntryFits` | src/sim.js:290-305 | each direct value fits its field's type |
| `Sim.DirectFits` | src/sim.js:307 | the three layers fit the layout whenever the inputs do |
| `Sim.ConstantsBinding` | src/sim.js:290-307 | the value each `SimConstants` field ends up with for one dispatch |
| `Sim.SimUniformOk` | src/sim.js:307 | the buffer throws exactly when the inputs leave a field unset that is neither set directly nor padding |
| `Sim.SimUniformWord` | src/sim.js:266-308 | each word of the built buffer is the encoding of its field's bound value |
| `Sim.SimUniformDeltaTime` | src/sim.js:291 | the time step word is `1/simRate`, whatever the inputs say |
| `Sim.SimUniformMouse` | src/sim.js:292-294 | words 4 and 5 hold the mouse position that is set directly, whatever the inputs say |
| `Sim.SimUniformCounters` | src/sim.js:298-304 | word 21 holds the substep index and word 25 the solver iteration, each as its low 32 bits |
| `Sim.SimUniformTail` | src/sim.js:90 | the five round-up words after `iterationCount` stay zero |
| `Sim.GridSlot` | src/sim.js:185-188 | the rotating grid index is always below 3 |
| `Sim.GridSlotIsRemainder` | src/sim.js:185-188 | the rotating index after `k` passes is `k mod 3` |
| `Sim.IterationPasses` | src/sim.js:181-191 | the iterations record one pass each |
| `Sim.SubstepPassesSplit` | src/sim.js:175-191 | a substep records `doEmission`'s passes, then `bukkitizeParticles`'s, then its iterations' |
| `Sim.IterationUniformsAppend` | src/sim.js:181-183 | one more iteration adds its uniform buffer at the end |
| `Sim.SubstepUniformsSplit` | src/sim.js:177-183 | a substep builds one buffer for emission and bucketing, then one per iteration |
| `Sim.FrameUniforms` | src/sim.js:175-194 | a frame builds `count · (n+1)` uniform buffers |
| `Sim.FrameFollows` | src/sim.js:165-175 | the grid clears followed by the substeps make up the frame |
| `Sim.G2P2GRotation` | src/sim.js:185-190 | the grids bound through `bufferIdx`, `+1` and `+2` modulo 3 are those of the frame's `k`-th pass |
| `Sim.IterationFollows` | src/sim.js:181-191 | one more iteration extends the iteration trace |
| `Sim.SubstepFollows` | src/sim.js:177-191 | emission, bucketing and iterations make up a substep's trace |
| `Sim.FrameUniformsFollow` | src/sim.js:175-194 | one more substep extends the frame's uniform buffers |
| `Sim.SubstepsFollow` | src/sim.js:175-194 | one more substep extends the frame's trace |
| `Sim.IterationRuns` | src/sim.js:181-191 | `m` iterations run the particle-to-grid shader `m` times and clear no grid |
| `Sim.SubstepPreludeRuns` | src/sim.js:127-156 | emission and bucketing run no particle-to-grid pass and clear no grid |
| `Sim.SubstepRuns` | src/sim.js:175-191 | a substep runs the particle-to-grid shader once per iteration and clears no grid |
| `Sim.SubstepsLength` | src/sim.js:175-194 | each substep records `11 + n` commands |
| `Sim.SubstepsRuns` | src/sim.js:175-194 | `count` substeps run `count · n` particle-to-grid passes and clear no grid |
| `Sim.FrameRuns` | src/sim.js:158-195 | a frame records `3 + count·(11+n)` commands and runs `count·n` particle-to-grid passes; the grids are cleared in its first three commands and never again |
| `Sim.SubstepsPassAt` | src/sim.js:175-194 | command `p` of substep `s` sits at `s·(11+n) + p` |
| `Sim.FramePassAt` | src/sim.js:165-191 | the frame's command at `3 + s·(11+n) + 11 + j` is iteration `j` of substep `s` |
| `Sim.G2P2GGrids` | src/sim.js:185-190 | pass `k` binds grids `k mod 3`, `(k+1) mod 3` and `(k+2) mod 3` |
| `Sim.FrameG2P2G` | src/sim.js:165-191 | iteration `j` of substep `s` is the frame's `(s·n + j)`-th particle-to-grid pass, so the grid rotation runs on across substeps |
| `Sim.IterationPassAt` | src/sim.js:181-191 | iteration `j` uses uniform buffer `base + j + 1` and grid pass `gridBase + j` |
| `Sim.Dispatch` | src/sim.js:133 | a dispatch of named buffers is accepted and recorded as one pass |
| `Sim.DoEmission` | src/sim.js:127-135 | emission over `divUp(grid, 8)` groups, then `setIndirectArgs` over one group |
| `Sim.ClearCommand` | src/sim.js:139 | one clear is recorded |
| `Sim.ClearGrids` | src/sim.js:166-169 | the three grids are cleared in order |
| `Sim.ResetBukkits` | src/sim.js:139-144 | five bucket buffers are cleared, then the blank dispatch is copied over the bucket dispatch |
| `Sim.BukkitizeParticles` | src/sim.js:137-156 | the resets, then count (indirect), allocate (`divUp` of the bucket counts) and insert (indirect) |
| `Sim.DispatchG2P2G` | src/sim.js:185-190 | records the frame's `k`-th particle-to-grid pass and moves the index to `k+1 mod 3` |
| `Sim.Simulator.constructor` | src/sim.js:123-124 | holds the two compiled factories and a substep index of 0 |
| `Sim.Simulator.ConstructSimUniformBuffer` | src/sim.js:266-308 | the buffer for one dispatch, with the current substep index as `simFrame` |
| `Sim.Simulator.ConstructShapeBuffer` | src/sim.js:310-354 | one record per box or circle, in scene order, packed into the storage buffer; it never fails |
| `Sim.Simulator.RunIteration` | src/sim.js:181-191 | one iteration's uniform buffer and particle-to-grid pass |
| `Sim.Simulator.RunIterations` | src/sim.js:181-191 | the iteration loop: `iterationCount` buffers and passes, the index moved on by that many |
| `Sim.Simulator.RunSubstep` | src/sim.js:175-194 | a substep fails exactly when the inputs are incomplete, before anything is recorded; otherwise it records its passes and adds 1 to the substep index |
| `Sim.Simulator.RunSubsteps` | src/sim.js:174-194 | the substep loop runs `max(0, count)` substeps; only the first can throw (the inputs are the same for all), and then nothing is recorded and the index is unchanged |
| `Sim.Simulator.Update` | src/sim.js:158-195 | one frame: the regulator steps, the shape buffer is built, the grids are cleared once, the substeps are recorded, and the substep index becomes `(reset ? 0 : old) + count`; on a throw only the grid clears are recorded |
| `Render.RenderLayout` | src/render.js:15-24 | the `RenderConstants` fields sit back to back and end at word 10 |
| `Render.BuildRenderConstants` | src/render.js:15-24 | four `vec2f` at 0, 2, 4, 6, then `renderMode`@8 and `deltaTime`@9, compiled to 16 words |
| `Render.ViewPos` | src/render.js:33 | the view position is half the grid size |
| `Render.RenderDirectValues` | src/render.js:42-51 | exactly the five direct keys are set, none `undefined`, not `renderMode`; the view extent equals the view position |
| `Render.RenderLayersFit` | src/render.js:53 | both layers fit the layout |
| `Render.RenderBinding` | src/render.js:53 | a field takes the direct value, else the inputs' value, else `undefined` |
| `Render.RenderModeNotPadding` | src/render.js:22 | `renderMode` is not exempt from validation |
| `Render.RenderUniformOk` | src/render.js:53 | the buffer throws exactly when the inputs lack `renderMode`, and then names it |
| `Render.RenderUniformWord` | src/render.js:31-54 | each word is the encoding of its field's bound value |
| `Render.RenderUniformCanvas` | src/render.js:46-47 | words 0–3 are 0.5, 0 and the resolution |
| `Render.RenderUniformView` | src/render.js:33-49 | words 4–7 are the view position twice |
| `Render.RenderUniformModeAndStep` | src/render.js:22-50 | word 8 is the inputs' render mode, and word 9 is `1/simRate` whatever the inputs say |
| `Render.RenderUniformTail` | src/render.js:24 | the six round-up words stay zero |
| `Render.Renderer.constructor` | src/render.js:28 | holds the compiled `RenderConstants` factory |
| `Render.Renderer.ConstructRenderUniformBuffer` | src/render.js:31-54 | the buffer built from `[inputs, setDirectlyValues]` |
| `Render.Init` | src/render.js:12-29 | builds the factory and publishes its struct text under `RenderConstants` |
| `Ui.ShapeName` | src/ui.js:451 | every generated name starts with `shape` |
| `Ui.ShapeNameInjective` | src/ui.js:443 | `shape<i>` names are pairwise distinct |
| `Ui.Remove` | src/ui.js:462 | `Set.delete` removes exactly that shape, keeps the order and distinctness, and is a no-op for a shape not in the set |
| `Ui.Probe` | src/ui.js:306-332 | only circles and boxes are considered; a circle is always in the translation zone |
| `Ui.PickUnique` | src/ui.js:304-333 | at most one shape satisfies the pick rule |
| `Ui.FindNearest` | src/ui.js:304-333 | the scan returns -1 exactly when no probe is within 50; otherwise it returns the nearest probe in range, and among equally near ones the earliest |
| `Ui.GridExtent` | src/ui.js:35-36 | `Math.floor(size / divisor)` |
| `Ui.Editor.IdsInUse` | src/ui.js:441-448 | the ids in use are exactly the ids of the shapes in the set |
| `Ui.Editor.constructor` | src/ui.js:13-24 | nothing grabbed, hovered or dragged; the mouse is up at (0, 0); the grid is 512 × 512; the set is empty |
| `Ui.Editor.AddShape` | src/ui.js:473 | adds one new shape object at the end of the set |
| `Ui.Editor.WindowResize` | src/ui.js:26-37 | the grid becomes the canvas size divided by the divisor, rounded down, per axis |
| `Ui.Editor.MouseMove` | src/ui.js:202-207 | records the mouse position |
| `Ui.Editor.MouseDown` | src/ui.js:209-231 | the grab becomes the hovered shape; when a shape is hovered a drag starts from the mouse and shape positions, otherwise the drag is unchanged; the mouse counts as down exactly when nothing is grabbed |
| `Ui.Editor.MouseUp` | src/ui.js:233-237 | the mouse is up and the drag ends; the grab is kept |
| `Ui.Editor.MouseOut` | src/ui.js:239-243 | the same as mouse up |
| `Ui.Editor.Probes` | src/ui.js:306-333 | one probe per shape of the set, in set order |
| `Ui.Editor.SelectHovered` | src/ui.js:300-333 | the hovered shape is the unique pick, or none when nothing is in range; the zone changes only on a pick |
| `Ui.Editor.DragGrabbed` | src/ui.js:279-297 | in the translation zone the shape follows the mouse from where the drag started; otherwise it turns by the swept angle |
| `Ui.Editor.Update` | src/ui.js:268-335 | nothing when the UI is hidden; a drag in progress with nothing grabbed throws a `TypeError` and changes nothing; a drag with a grab moves the grabbed shape to the mouse offset from the drag start (translation zone) or turns it by the swept angle and remembers the mouse (`Dragged`); with no drag, the hovered shape is the unique nearest shape in range, or none, and the zone follows the pick (`Hovered`) |
| `Ui.Editor.HasShapeWithId` | src/ui.js:440-448 | the inner scan finds whether some shape has the id |
| `Ui.Editor.SomeNameFree` | src/ui.js:438-455 | some `shape<i>` is free, so the search ends |
| `Ui.Editor.AllocateShapeName` | src/ui.js:434-456 | returns `shape<i>` for the least `i` no shape is called |
| `Ui.Editor.DeleteShape` | src/ui.js:458-465 | removes only the grabbed shape and lets go; it is a no-op when nothing is grabbed; a drag in progress is kept, and is then left without a grab |
| `Ui.Editor.DeleteShapeReleasing` | src/ui.js:458-465 | the corrected delete: as `DeleteShape`, and it also ends the drag, so a drag always has a grab |
| `Ui.Editor.DeleteWhileDragging` | src/ui.js:279-294 | Delete pressed during a drag, then a frame with the UI shown: the frame's `update` throws a `TypeError` |
| `Ui.Editor.DeleteReleasingWhileDragging` | src/ui.js:458-465 | the same sequence with the corrected delete: the frame's `update` succeeds |
| `Ui.Editor.DuplicateShape` | src/ui.js:467-475 | a no-op when nothing is grabbed; otherwise it adds one copy of the grabbed shape, identical but for its id, the least free `shape<i>`; the grab is unchanged |
| `Ui.TakenNameLeaves` | src/ui.js:449-454 | a taken name leaves fewer taken ids to try |
| `Host.Rescale` | src/main.js:502-511 | positions scale per axis, half size and radius scale by the size scale, and nothing else changes |
| `Host.UniformStretch` | src/main.js:493-497 | when both axes stretch alike, sizes scale exactly as positions do |
| `Host.SameResolutionKeepsShapes` | src/main.js:491-511 | loading at the saved resolution leaves every shape unchanged |
| `Host.LoadScene` | src/main.js:478-520 | throws exactly for versions outside [1, 2]; otherwise it keeps the saved aspect ratio, rescales every shape in order, and applies the settings only from version 2 |
| `Host.FindWithPrefix` | src/main.js:538 | `find` returns the first row with the prefix, or none |
| `Host.CookieValue` | src/main.js:536-539 | the cookie value contains no `=` |
| `Host.MinWith` | src/main.js:543 | `Math.min(x, n)`: `NaN` stays `NaN`, a finite or infinite number is capped at `n`, and a finite result is `x` or `n` |
| `Host.StartScene` | src/main.js:535-544 | scene 0 when the cookie has no value or an empty one; otherwise `NaN` exactly when `Number` of the value is `NaN`; a finite index is at most the list length, and it is never `+Infinity` |
| `Host.CookieReadsValue` | src/main.js:535-544 | the value after `pbmpm-scene=` is read with `Number` and capped by `Math.min` |
| `Host.NoOccurrence` | src/main.js:537 | a string without the separator's first character does not contain the separator |
| `Host.SplitWithout` | src/main.js:539 | a string without the separator splits into itself |
| `Host.CookieRoundTrip` | src/main.js:524-544 | reading back the cookie that loading scene `i` writes gives exactly `min(i, length)` |
| `Host.NextScene` | src/main.js:573 | `(scenario + 1) mod length` |
| `Host.CycleAdvances` | src/main.js:570-575 | until the list runs out, each cycle moves one place on |
| `Host.CycleCompose` | src/main.js:570-575 | cycling `a + b` times is cycling `a` times, then `b` |
| `Host.CycleFullRound` | src/main.js:570-575 | one cycle per scene comes back to the start |
| `Host.Dots` | src/main.js:451 | `'.'.repeat(n)` |
| `Host.Spinner.constructor` | src/main.js:447 | the spinner state starts at 0 |
| `Host.Spinner.Update` | src/main.js:448-454 | the text is "Loading" plus `floor(state/5)` dots, from 0 to 3, and the state steps modulo 20 |
| `Host.Page.TwoFrames` | src/main.js:191-212 | the first of two frames resets exactly when a restart was pending or the divisor, the emit flags, the particles per cell or the grid size changed; a second frame with the settings the first left behind does not reset, whatever its mouse, scenario or solver |
| `Host.Page.constructor` | src/main.js:15-20 | a restart is pending, the simulation is not paused, the scenario counts as -1, and the mouse radius is 100 |
| `Host.Page.Wheel` | src/main.js:100-105 | while the mouse is down the radius is multiplied by the wheel factor, otherwise it is unchanged; a positive radius stays positive |
| `Host.Page.UpdateInputs` | src/main.js:179-215 | a new scenario starts a load; a changed system setting resizes and resets this frame; a pending restart also goes to this frame and is cleared; the frame carries the previous mouse position, the current pause and the current mouse radius, which it leaves unchanged |
| `Host.Page.SceneLoaded` | src/main.js:188 | a loaded scene requests a restart |
| `Host.Page.RequestReset` | src/main.js:77-81 | F5 (or the reset button) requests a restart |
| `Host.Page.TogglePause` | src/main.js:72-76 | the space bar (or the pause button) toggles the pause |

## Left out

- The WGSL kernels (emission, bucketing, particle-to-grid, rendering) are not part of this model. Only the host's command trace is modelled.
- WebGPU calls are abstract. `createBuffer`, `writeBuffer`, bind-group and pipeline creation, `submit` and `mapAsync` are trace entries or parameters. Pipeline compilation in `shader.init` (src/shader.js:28-58) is a foreign call. The list of shader names is kept as a constant.
- `render.update`'s render pass (src/render.js:56-75) is left out. It is WebGPU render-pass calls only.
- Floats are reals. Float32 rounding on write, NaN payloads and `BigInt` timestamps are left out.
- The source multiplies by `1/simResDivisor`; the model divides by it, which is equal over the reals.
- The mouse position and velocity conversions (src/sim.js:274-287) arrive as inputs to the constants buffer. They depend on float geometry and `getLastRenderTimeStep`.
- `rho_zero` names no field, so it is modelled only as a key the layer sets.
- `boxCollide` (src/ui.js:251-266) and the drag angle (`v.angleBetween`) are inputs: each shape's distance and zone, and the angle increment. `src/v.js` is not part of this model.
- JavaScript coercions in packing are not modelled. The model assumes every value has the shape its field's type expects: a number for a scalar, a two- or three-element array for a vector. Fields built from strings (`document.getElementById(...).value`) would be coerced by the typed arrays.
- `Sim.UniformInputsValid` requires `simRate > 0` and `simResDivisor > 0`. The UI only offers positive values (src/ui.js:87-90), and the source would divide by zero otherwise.
- `Sim.ShapeRecord` also requires `simResDivisor > 0`, for the same reason.
- `Sim.UniformInputs` carries `inputs.shapes.size` as the number `shapeCount`, not the shape set itself.
- Each uniform buffer a frame builds is named `SimConstants#k` in the trace, so that buffers can be told apart. In the source every one is labelled `SimConstants`.
- Scene lists and files arrive as values. The `fetch` of the manifest and of scene files is left out, as are the DOM updates of `loadScenes`, `updateDom`, `saveScene`, `newScene`, the key handlers and the tab wiring. The handlers' effects are modelled by the members they call (`Ui.Editor.DeleteShape`, `Ui.Editor.DuplicateShape`, `Host.Page.TogglePause`, `Host.Page.RequestReset`, `Host.Page.Wheel`).
- `main.js` calls `ui.clearShapes`, `ui.setRequiredAspectRatio`, `ui.setUIElementsToDefault`, `ui.setUIElements` and `ui.cleanSelectionState`. None of these is defined in `src/ui.js`. `Host.LoadScene` returns the aspect ratio and the settings to apply instead of calling them.
- The comparison with `SolverTypePositionBasedFluids` (src/main.js:195) names an enumeration entry that `SimEnums` does not define. The clause is therefore never true, and `Host.ResetTriggered` omits it.
- The completion of an asynchronous map is an explicit event: the `Complete…Readback` methods. `Gpu.Context.CompleteTimeStampReadback` uses the names of the frame current at completion, as the source does (src/gpu.js:396), not the names of the frame that was copied.
- No overflow policy is invented for the bucket thread-data capacity (src/sim.js:214-218) or the timestamp query capacity (src/gpu.js:349). The model records indices beyond 4096 as the source does.
- `console.assert` only logs, so the model states it as a precondition:
  - not compiled, for `add` and `compile`;
  - compiled and the right mode, for the constructors.
- `Shader.Preprocessor.ExpandInserts` and `Shader.InsertsExpanded` require handler texts that neither contain `//!insert` nor begin with a tail of it (`HandlersSafe`, `AllSafe`). Without that, the source's insert loop need not end, or can splice a new directive together.
- `Shader.Preprocessor.Preprocess`: the insert stage is stated exactly (`Shader.InsertsExpanded`). The include stage is characterised by the error cases, the absence of `//!include` and the seen-set discipline, not as an exact expanded text. The single rewriting step is stated exactly by `Shader.SpliceStep`.
- `Shader.Preprocessor.ExpandIncludes`: the same. The text spliced in for each include is not stated as an expression of the file map.
- `Sim.Simulator.Update`: the trace is stated with timestamp indices dropped (`Untimed`). With timestamps enabled, the indices follow `Gpu.Context.ComputeDispatch`.
- `BufferFactory.Factory.ConstructStorageBuffer`: the values left in the fields after the last record are not stated, only that the layout is unchanged. The next build clears them first (`BufferFactory.PackRecordsSameShape`).
- `Shader.SpliceStep`: the splice is the literal `Text.ReplaceFirst`. JavaScript's `replace` also expands `$$`, `$&`, `` $` `` and `$'` in the replacement (`Text.Replace`, `Text.Substitute`). The two agree when the replacement holds no `$` (`Text.Replace`'s contract). Shader files and handler texts that contain `$` are not modelled; with a `$'` in a handler text the source's insert loop can even copy the directive back in.
- `Text.ReplaceFirst`: the same. It is `replace` only for a replacement without `$`.
- `Shader.Preprocessor.GetShaderText`: a name the file map lacks stands for a `fetch` that rejects. A `fetch` of a missing file resolves with a 404 response, and the source would preprocess that response's body as shader text; that case is not modelled.
- `Text.ToNumber`: numbers are exact reals. Rounding to the nearest double, overflow to `Infinity` for huge literals and the sign of `-0` are not modelled (`-0` reads as 0).
- `Host.Page.Wheel`: the factor `Math.pow(1.1, event.wheelDelta / 120)` is a positive parameter; the power and the event are not modelled.
- `Host.Page.UpdateInputs`: the `getInputs` of `src/ui.js` (src/ui.js:47-71) supplies no `scenario`, `addLiquid`, `addElastic` or `solverType`, since `g_uiElements` declares no such control. The model assumes a UI that supplies all four as numbers. With that `ui.js`, `scenario` is `undefined`: the first frame loads `g_manifest[undefined]`, and cycling computes `Number(undefined) + 1`, which is `NaN`.
- `Ui.Editor.DuplicateShape`: the copy goes through `JSON.parse(JSON.stringify(...))` (src/ui.js:471), which turns non-finite numbers into `null` and drops `undefined` members. The model copies the shape record as it is, which agrees for the finite values a scene holds.
- `Host.LoadScene`: requires a positive saved width and height. With a zero saved resolution the source divides by zero, gets infinite or NaN scale factors and still loads the shapes; reals have no infinity or NaN, so that case is not modelled.
- `Host.LoadScene`: `Math.sqrt` is a parameter `sizeScale` with `sizeScale ≥ 0` and `sizeScale² = widthScale·heightScale`.
- `Time.TimeState.DoTimeRegulation`: the `console.log` warning when throttling is dropped.
- `Gpu.Context.CompleteParticleCountReadback`: the staging map's 16-byte range is not modelled. The count read is a parameter.

## Findings

| source | as written | input that shows it | evidently intended | confidence | as-written member | corrected member |
|---|---|---|---|---|---|---|
| src/buffer_factory.js:41-48 | padding before a field is `totalCount % alignment` words | a `vec3f` added when `totalCount` is 1 (or 3): 1 (or 3) padding words are added, and the field starts at word 2 (or 6), which is not a multiple of its 4-word alignment | pad up to the next multiple of the alignment: `(alignment − totalCount % alignment) % alignment` words | not executed | `BufferFactory.Vec3fUnderPadded` | `BufferFactory.AlignedPaddingLeast` |
| src/ui.js:458-465 | `deleteShape` clears the grab but keeps `g_dragging`, and the next `update` reads the grabbed shape's position (src/ui.js:279-294) | press Delete (src/main.js:88-91) while a shape is being dragged: the next frame's `update` finds a drag with nothing grabbed and throws a `TypeError` on `g_grabbedObject.position` | deleting the dragged shape also ends the drag | not executed | `Ui.Editor.DeleteWhileDragging` (with `Ui.Editor.DeleteShape` and `Ui.Editor.Update`) | `Ui.Editor.DeleteShapeReleasing`, `Ui.Editor.DeleteReleasingWhileDragging` |

For every other type the two formulas agree (`BufferFactory.PaddingAgreesWhenAligned`). So do the layouts the program declares, which contain no `vec3f` (`Sim.ConstantsLayout`, `Sim.ShapeLayout`, `Render.RenderLayout`). The factory therefore keeps the code's formula. `Factory.Add` states its effect through `BufferFactory.PaddingBefore`.
