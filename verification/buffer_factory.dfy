/**
 * The struct layout and packing engine. A `Factory` collects named, typed
 * fields, places each at the next word offset its alignment allows (inserting
 * single-word `paddingN` fields), is sealed by `Compile` (which rounds a
 * uniform buffer up to 16 words), and then packs layered key/value maps into a
 * flat word array, one record (uniform) or many (storage).
 */
module BufferFactory {
  import opened Wrappers
  import opened Text

  /** The field types the factory knows. */
  datatype FieldType = F32 | Vec2f | Vec3f | U32 | Vec2u

  /** The WGSL spelling of a field type. */
  function TypeName(t: FieldType): string {
    match t
    case F32 => "f32"
    case Vec2f => "vec2f"
    case Vec3f => "vec3f"
    case U32 => "u32"
    case Vec2u => "vec2u"
  }

  datatype Mode = Storage | Uniform

  /** The two exceptions the factory throws, with the text it throws. */
  datatype LayoutError = UnsupportedType(ty: string) | NeverSet(name: string) {
    function Message(): string {
      match this
      case UnsupportedType(ty) => "Unsupported type [" + ty + "]"
      case NeverSet(name) => "Element " + name + " has never had its value set."
    }
  }

  /** The `switch (type)` shared by the size and alignment tables, with its `default: throw`. */
  function ParseType(ty: string): (r: Result<FieldType, LayoutError>)
    ensures r.Ok? ==> TypeName(r.value) == ty
    ensures r.Err? ==> r.error == UnsupportedType(ty) && forall t: FieldType :: TypeName(t) != ty
  {
    if ty == "f32" then Ok(F32)
    else if ty == "vec2f" then Ok(Vec2f)
    else if ty == "vec3f" then Ok(Vec3f)
    else if ty == "u32" then Ok(U32)
    else if ty == "vec2u" then Ok(Vec2u)
    else Err(UnsupportedType(ty))
  }

  /** Every type name parses back to its type. */
  lemma ParseTypeName(t: FieldType)
    ensures ParseType(TypeName(t)) == Ok(t)
  {
    match t
    case F32 =>
    case Vec2f => assert TypeName(t)[0] != "f32"[0];
    case Vec3f => assert TypeName(t)[0] != "f32"[0] && TypeName(t)[3] != "vec2f"[3];
    case U32 => assert TypeName(t)[0] != "f32"[0] && TypeName(t)[0] != "vec2f"[0];
    case Vec2u =>
      assert TypeName(t)[0] != "f32"[0] && TypeName(t)[4] != "vec2f"[4] && TypeName(t)[3] != "vec3f"[3];
      assert TypeName(t)[0] != "u32"[0];
  }

  /** Words (f32-sized slots) a field of type `t` occupies. */
  function SlotCount(t: FieldType): nat {
    match t
    case F32 | U32 => 1
    case Vec2f | Vec2u => 2
    case Vec3f => 3
  }

  /** Alignment, in words, of a field of type `t`. */
  function AlignmentOf(t: FieldType): nat {
    match t
    case F32 | U32 => 1
    case Vec2f | Vec2u => 2
    case Vec3f => 4
  }

  /** WGSL's layout rule: each type's alignment is the least power of two that holds it. */
  lemma AlignmentIsPowerOfTwoCover(t: FieldType)
    ensures AlignmentOf(t) == 1 || AlignmentOf(t) == 2 || AlignmentOf(t) == 4
    ensures SlotCount(t) <= AlignmentOf(t) < 2 * SlotCount(t)
  {
  }

  /** A word offset at which a field of type `t` may start. */
  predicate Aligned(at: nat, t: FieldType) {
    at % AlignmentOf(t) == 0
  }

  /**
   * The padding `add` inserts before a field of type `t` when `total` words
   * are in use: `total % alignment` words.
   */
  function PaddingBefore(total: nat, t: FieldType): (pad: nat)
    ensures pad < AlignmentOf(t)
    ensures t == F32 || t == U32 ==> pad == 0
  {
    total % AlignmentOf(t)
  }

  /**
   * The padding leaves the field aligned for every type but `vec3f`, and for
   * `vec3f` exactly when the words in use are 0 or 2 modulo 4.
   */
  lemma PaddingAligns(total: nat, t: FieldType)
    ensures t != Vec3f ==> Aligned(total + PaddingBefore(total, t), t)
    ensures t == Vec3f ==> (Aligned(total + PaddingBefore(total, t), t) <==> total % 4 == 0 || total % 4 == 2)
  {
    match t
    case F32 | U32 =>
    case Vec2f | Vec2u => Mod2Doubled(total);
    case Vec3f => Mod4Doubled(total);
  }

  /** Doubling the remainder modulo 2 always clears it. */
  lemma Mod2Doubled(n: nat)
    ensures (n + n % 2) % 2 == 0
  {
    var q := n / 2;
    assert n == 2 * q + n % 2;
    if n % 2 == 1 {
      assert n + n % 2 == 2 * (q + 1);
    }
  }

  /** Doubling the remainder modulo 4 clears it exactly when that remainder is even. */
  lemma Mod4Doubled(n: nat)
    ensures (n + n % 4) % 4 == 0 <==> n % 4 == 0 || n % 4 == 2
  {
    var q := n / 4;
    var r := n % 4;
    assert n == 4 * q + r;
    if r == 1 {
      assert n + r == 4 * q + 2;
    } else if r == 2 {
      assert n + r == 4 * (q + 1);
    } else if r == 3 {
      assert n + r == 4 * (q + 1) + 2;
    }
  }

  /** A `vec3f` added after one word in use lands at word 2, which is not 16-byte aligned. */
  lemma Vec3fUnderPadded()
    ensures PaddingBefore(1, Vec3f) == 1 && !Aligned(1 + PaddingBefore(1, Vec3f), Vec3f)
    ensures PaddingBefore(3, Vec3f) == 3 && !Aligned(3 + PaddingBefore(3, Vec3f), Vec3f)
  {
  }

  /** The padding WGSL's alignment rule asks for: up to the next multiple of the alignment. */
  function AlignedPadding(total: nat, t: FieldType): (pad: nat)
    ensures pad < AlignmentOf(t)
  {
    (AlignmentOf(t) - total % AlignmentOf(t)) % AlignmentOf(t)
  }

  /** The aligned padding is the least number of words that aligns the field. */
  lemma AlignedPaddingLeast(total: nat, t: FieldType)
    ensures Aligned(total + AlignedPadding(total, t), t)
    ensures forall at :: total <= at < total + AlignedPadding(total, t) ==> !Aligned(at, t)
  {
    match t
    case F32 | U32 =>
    case Vec2f | Vec2u => PadUpLeast2(total);
    case Vec3f => PadUpLeast4(total);
  }

  /** Rounding `n` up to an even number adds the least count that reaches one. */
  lemma PadUpLeast2(n: nat)
    ensures (n + (2 - n % 2) % 2) % 2 == 0
    ensures forall at :: n <= at < n + (2 - n % 2) % 2 ==> at % 2 != 0
  {
    var q := n / 2;
    assert n == 2 * q + n % 2;
    forall at | n <= at < n + (2 - n % 2) % 2 ensures at % 2 != 0 {
      assert at == 2 * q + 1;
    }
  }

  /** Rounding `n` up to a multiple of 4 adds the least count that reaches one. */
  lemma PadUpLeast4(n: nat)
    ensures (n + (4 - n % 4) % 4) % 4 == 0
    ensures forall at :: n <= at < n + (4 - n % 4) % 4 ==> at % 4 != 0
  {
    var q := n / 4;
    assert n == 4 * q + n % 4;
    forall at | n <= at < n + (4 - n % 4) % 4 ensures at % 4 != 0 {
      assert at == 4 * q + (at - 4 * q) && 0 < at - 4 * q < 4;
    }
  }

  /** Where the two agree: every type but `vec3f`, and `vec3f` after 0 or 2 words modulo 4. */
  lemma PaddingAgreesWhenAligned(total: nat, t: FieldType)
    requires t == Vec3f ==> total % 4 == 0 || total % 4 == 2
    ensures PaddingBefore(total, t) == AlignedPadding(total, t)
  {
    var a := AlignmentOf(t);
    assert total == a * (total / a) + total % a;
  }

  /** `getSize`: the slot count of a type given by name. */
  function GetSize(ty: string): (r: Result<nat, LayoutError>)
    ensures r.Err? <==> ParseType(ty).Err?
    ensures r.Err? ==> r.error == UnsupportedType(ty)
    ensures r.Ok? ==> r.value == SlotCount(ParseType(ty).value)
  {
    match ParseType(ty)
    case Ok(t) => Ok(SlotCount(t))
    case Err(e) => Err(e)
  }

  /** `getAlignment`: the alignment of a type given by name. */
  function GetAlignment(ty: string): (r: Result<nat, LayoutError>)
    ensures r.Err? <==> ParseType(ty).Err?
    ensures r.Err? ==> r.error == UnsupportedType(ty)
    ensures r.Ok? ==> r.value == AlignmentOf(ParseType(ty).value)
  {
    match ParseType(ty)
    case Ok(t) => Ok(AlignmentOf(t))
    case Err(e) => Err(e)
  }

  /** `Math.ceil(n / 16) * 16`. */
  function RoundUp16(n: nat): (r: nat)
    ensures r % 16 == 0 && n <= r < n + 16
  {
    (n + 15) / 16 * 16
  }

  /**
   * A JavaScript value a layer can hold for a key: `undefined`, a number or
   * an array of numbers.
   */
  datatype Value = Undefined | Num(x: real) | Vec(xs: seq<real>)

  /** One slot of the `Float32Array`: a float, or the raw bits of an int32 written through an `Int32Array` view. */
  datatype Word = FloatWord(f: real) | IntBits(bits: nat)

  const Zero: Word := FloatWord(0.0)

  const TwoTo32: nat := 0x1_0000_0000

  /** Truncation toward zero, the first step of the int32 conversion. */
  function Trunc(x: real): int {
    if x >= 0.0 then x.Floor else -((-x).Floor)
  }

  /** The 32 bits an `Int32Array` stores for `x`, read as an unsigned number. */
  function Int32Bits(x: real): (b: nat)
    ensures b < TwoTo32
    ensures (b - Trunc(x)) % TwoTo32 == 0
  {
    Trunc(x) % TwoTo32
  }

  /** A non-negative integer is stored as its low 32 bits. */
  lemma Int32BitsNat(n: nat)
    ensures Int32Bits(n as real) == n % TwoTo32
  {
    assert (n as real).Floor == n;
  }

  /** A value of the shape the field's type expects (or `undefined`). */
  predicate Fits(ty: FieldType, v: Value) {
    match v
    case Undefined => true
    case Num(_) => ty == F32 || ty == U32
    case Vec(xs) => (ty == Vec2f || ty == Vec2u || ty == Vec3f) && |xs| == SlotCount(ty)
  }

  /** An entry of `elements`: its value is the one most recently bound. */
  datatype Element = Element(name: string, ty: FieldType, value: Value, offset: nat, slotCount: nat)

  predicate WellFormed(e: Element) {
    e.slotCount == SlotCount(e.ty) && Fits(e.ty, e.value)
  }

  /** The word just past the last field. */
  function End(elems: seq<Element>): nat {
    if |elems| == 0 then 0 else elems[|elems| - 1].offset + elems[|elems| - 1].slotCount
  }

  /**
   * Fields sit back to back from word 0 in the order they were added: each
   * starts where the ones before it end, and holds a value of its type's shape.
   */
  predicate IsLayout(elems: seq<Element>)
    decreases |elems|
  {
    |elems| == 0 ||
    (var n := |elems| - 1;
     IsLayout(elems[..n]) && WellFormed(elems[n]) && elems[n].offset == End(elems[..n]))
  }

  /** Well-formed fields placed back to back from word 0 form a layout. */
  lemma {:induction false} BackToBack(elems: seq<Element>)
    requires forall i | 0 <= i < |elems| :: WellFormed(elems[i])
    requires |elems| > 0 ==> elems[0].offset == 0
    requires forall i | 0 < i < |elems| :: elems[i].offset == elems[i - 1].offset + elems[i - 1].slotCount
    ensures IsLayout(elems)
    decreases |elems|
  {
    if |elems| > 0 {
      var n := |elems| - 1;
      BackToBack(elems[..n]);
    }
  }

  /** Well-formed fields placed back to back from the end of a layout extend it. */
  lemma {:induction false} BackToBackAfter(prefix: seq<Element>, elems: seq<Element>)
    requires IsLayout(prefix)
    requires forall i | 0 <= i < |elems| :: WellFormed(elems[i])
    requires |elems| > 0 ==> elems[0].offset == End(prefix)
    requires forall i | 0 < i < |elems| :: elems[i].offset == elems[i - 1].offset + elems[i - 1].slotCount
    ensures IsLayout(prefix + elems)
    decreases |elems|
  {
    if |elems| > 0 {
      AppendToLayout(prefix, elems[0]);
      var rest := elems[1..];
      assert forall i | 0 < i < |rest| :: rest[i].offset == rest[i - 1].offset + rest[i - 1].slotCount;
      BackToBackAfter(prefix + [elems[0]], rest);
      assert prefix + [elems[0]] + rest == prefix + elems;
    } else {
      assert prefix + elems == prefix;
    }
  }

  /** A single layer that names every field but the padding ones, with a value, leaves nothing unset. */
  lemma SingleLayerComplete(elems: seq<Element>, layer: map<string, Value>)
    requires forall i | 0 <= i < |elems| ::
      Contains(elems[i].name, "padding") || (elems[i].name in layer && layer[elems[i].name] != Undefined)
    ensures FirstUnset(Resolve(elems, [layer])) == -1
  {
    ResolveBinds(elems, [layer]);
    forall i | 0 <= i < |elems| ensures !IsUnset(Resolve(elems, [layer])[i]) {
      LastBindingSingle(layer, elems[i].name);
    }
  }

  lemma AppendToLayout(elems: seq<Element>, e: Element)
    requires IsLayout(elems) && WellFormed(e) && e.offset == End(elems)
    ensures IsLayout(elems + [e]) && End(elems + [e]) == e.offset + e.slotCount
  {
    assert (elems + [e])[..|elems|] == elems;
  }

  lemma {:induction false} LayoutPrefix(elems: seq<Element>, m: nat)
    requires IsLayout(elems) && m <= |elems|
    ensures IsLayout(elems[..m])
    decreases |elems| - m
  {
    if m < |elems| {
      var n := |elems| - 1;
      assert elems[..n][..m] == elems[..m];
      LayoutPrefix(elems[..n], m);
    } else {
      assert elems[..m] == elems;
    }
  }

  /** Every field of a layout lies within it and is well formed. */
  lemma {:induction false} FieldWithinEnd(elems: seq<Element>, i: nat)
    requires IsLayout(elems) && i < |elems|
    ensures WellFormed(elems[i])
    ensures elems[i].offset + elems[i].slotCount <= End(elems)
    decreases |elems|
  {
    var n := |elems| - 1;
    if i < n {
      var prefix := elems[..n];
      assert prefix[i] == elems[i];
      FieldWithinEnd(prefix, i);
    }
  }

  /** Changing values only, each to one of its field's shape, keeps a layout a layout. */
  lemma {:induction false} SameShapeLayout(a: seq<Element>, b: seq<Element>)
    requires IsLayout(b) && ClearValues(a) == ClearValues(b)
    requires forall i :: 0 <= i < |a| ==> Fits(a[i].ty, a[i].value)
    ensures IsLayout(a) && End(a) == End(b)
    decreases |a|
  {
    assert |a| == |ClearValues(a)| == |b|;
    if |a| > 0 {
      var n := |a| - 1;
      assert ClearValues(a[..n]) == ClearValues(b[..n]) by {
        forall i | 0 <= i < n ensures ClearValues(a[..n])[i] == ClearValues(b[..n])[i] {
          assert ClearValues(a)[i] == ClearValues(b)[i];
        }
      }
      SameShapeLayout(a[..n], b[..n]);
      assert ClearValues(a)[n] == ClearValues(b)[n];
    }
  }

  function PaddingName(n: nat): string {
    "padding" + NatToString(n)
  }

  /** `count` padding fields named from `padding<first>`, placed from word `at`. */
  function Paddings(first: nat, count: nat, at: nat): (r: seq<Element>)
    ensures |r| == count
    decreases count
  {
    if count == 0 then [] else Paddings(first, count - 1, at) + [Element(PaddingName(first + count - 1), F32, Undefined, at + count - 1, 1)]
  }

  /** One more padding field extends a layout that ends in padding fields. */
  lemma PaddingAppended(start: seq<Element>, prev: seq<Element>, next: seq<Element>, first: nat, done: nat, at: nat)
    requires prev == start + Paddings(first, done, at)
    requires next == prev + [Element(PaddingName(first + done), F32, Undefined, at + done, 1)]
    ensures next == start + Paddings(first, done + 1, at)
  {
    assert Paddings(first, done + 1, at) == Paddings(first, done, at) + [Element(PaddingName(first + done), F32, Undefined, at + done, 1)];
  }

  /** The text of one member line of the generated WGSL struct. */
  function FieldLine(e: Element): string {
    e.name + ": " + TypeName(e.ty) + ",\n"
  }

  function FieldLines(elems: seq<Element>): string {
    if |elems| == 0 then "" else FieldLines(elems[..|elems| - 1]) + FieldLine(elems[|elems| - 1])
  }

  function StructText(name: string, elems: seq<Element>): string {
    "struct " + name + "\n{\n" + FieldLines(elems) + "};\n"
  }

  // ---------------------------------------------------------------------------
  // Binding values: clearing, layering, validation

  function ClearValues(elems: seq<Element>): seq<Element> {
    seq(|elems|, i requires 0 <= i < |elems| => elems[i].(value := Undefined))
  }

  /** One pass of `for (elem of elements) if (elem.name in valueObject) elem.value = valueObject[elem.name]`. */
  function ApplyLayer(elems: seq<Element>, layer: map<string, Value>): seq<Element> {
    seq(|elems|, i requires 0 <= i < |elems| =>
      if elems[i].name in layer then elems[i].(value := layer[elems[i].name]) else elems[i])
  }

  function ApplyLayers(elems: seq<Element>, layers: seq<map<string, Value>>): seq<Element>
    decreases |layers|
  {
    if |layers| == 0 then elems else ApplyLayer(ApplyLayers(elems, layers[..|layers| - 1]), layers[|layers| - 1])
  }

  /** The values after clearing every field and applying `layers` in order. */
  function Resolve(elems: seq<Element>, layers: seq<map<string, Value>>): seq<Element> {
    ApplyLayers(ClearValues(elems), layers)
  }

  /** The value the last layer that has the key gives it, `undefined` if none has it. */
  function LastBinding(layers: seq<map<string, Value>>, key: string): Value
    decreases |layers|
  {
    if |layers| == 0 then Undefined
    else if key in layers[|layers| - 1] then layers[|layers| - 1][key]
    else LastBinding(layers[..|layers| - 1], key)
  }

  /** With a single layer, a field takes that layer's value for its name, or `undefined`. */
  lemma LastBindingSingle(layer: map<string, Value>, key: string)
    ensures LastBinding([layer], key) == if key in layer then layer[key] else Undefined
  {
    assert [layer][..0] == [];
  }

  /** A layer fits two layouts back to back when it fits each of them. */
  lemma LayerFitsConcat(a: seq<Element>, b: seq<Element>, layer: map<string, Value>)
    requires LayerFits(a, layer) && LayerFits(b, layer)
    ensures LayerFits(a + b, layer)
  {
    forall i | 0 <= i < |a + b| && (a + b)[i].name in layer
      ensures Fits((a + b)[i].ty, layer[(a + b)[i].name])
    {
      if i >= |a| {
        assert (a + b)[i] == b[i - |a|];
      }
    }
  }

  /** With two layers, the second decides for its own keys and the first for the rest. */
  lemma LastBindingTwo(a: map<string, Value>, b: map<string, Value>, key: string)
    ensures LastBinding([a, b], key) == if key in b then b[key] else if key in a then a[key] else Undefined
  {
    assert [a, b][..1] == [a];
    LastBindingSingle(a, key);
  }

  /** With three layers, the last one naming the key decides. */
  lemma LastBindingThree(a: map<string, Value>, b: map<string, Value>, c: map<string, Value>, key: string)
    ensures LastBinding([a, b, c], key) ==
      if key in c then c[key] else if key in b then b[key] else if key in a then a[key] else Undefined
  {
    assert [a, b, c][..2] == [a, b];
    assert [a, b][..1] == [a];
    LastBindingSingle(a, key);
  }

  /** When every field but the padding ones ends up with a value, validation passes. */
  lemma LayersComplete(elems: seq<Element>, layers: seq<map<string, Value>>)
    requires forall i | 0 <= i < |elems| ::
      Contains(elems[i].name, "padding") || LastBinding(layers, elems[i].name) != Undefined
    ensures FirstUnset(Resolve(elems, layers)) == -1
  {
    ResolveBinds(elems, layers);
  }

  /** A field no layer sets, and not named as padding, makes validation fail. */
  lemma LayersIncomplete(elems: seq<Element>, layers: seq<map<string, Value>>, i: nat)
    requires i < |elems| && !Contains(elems[i].name, "padding") && LastBinding(layers, elems[i].name) == Undefined
    ensures FirstUnset(Resolve(elems, layers)) >= 0
  {
    ResolveBinds(elems, layers);
    assert IsUnset(Resolve(elems, layers)[i]);
  }

  predicate LayerFits(elems: seq<Element>, layer: map<string, Value>) {
    forall i :: 0 <= i < |elems| && elems[i].name in layer ==> Fits(elems[i].ty, layer[elems[i].name])
  }

  predicate LayersFit(elems: seq<Element>, layers: seq<map<string, Value>>) {
    forall l :: 0 <= l < |layers| ==> LayerFits(elems, layers[l])
  }

  /**
   * Layering: after resolution each field holds the value of the last layer
   * that names it, even `undefined`; a field no layer names is `undefined`;
   * keys naming no field change nothing, and the layout is untouched.
   */
  lemma {:induction false} ResolveBinds(elems: seq<Element>, layers: seq<map<string, Value>>)
    ensures |Resolve(elems, layers)| == |elems|
    ensures forall i :: 0 <= i < |elems| ==>
      Resolve(elems, layers)[i] == elems[i].(value := LastBinding(layers, elems[i].name))
    decreases |layers|
  {
    if |layers| > 0 {
      var init := layers[..|layers| - 1];
      ResolveBinds(elems, init);
      assert Resolve(elems, layers) == ApplyLayer(Resolve(elems, init), layers[|layers| - 1]);
    }
  }

  lemma ResolveKeepsLayout(elems: seq<Element>, layers: seq<map<string, Value>>)
    requires IsLayout(elems) && LayersFit(elems, layers)
    ensures IsLayout(Resolve(elems, layers)) && End(Resolve(elems, layers)) == End(elems)
    ensures ClearValues(Resolve(elems, layers)) == ClearValues(elems)
  {
    ResolveBinds(elems, layers);
    var r := Resolve(elems, layers);
    forall i | 0 <= i < |elems| ensures Fits(r[i].ty, r[i].value) {
      LastBindingFits(elems, layers, i);
    }
    assert ClearValues(r) == ClearValues(elems);
    SameShapeLayout(r, elems);
  }

  lemma {:induction false} LastBindingFits(elems: seq<Element>, layers: seq<map<string, Value>>, i: nat)
    requires i < |elems| && LayersFit(elems, layers)
    ensures Fits(elems[i].ty, LastBinding(layers, elems[i].name))
    decreases |layers|
  {
    if |layers| > 0 && elems[i].name !in layers[|layers| - 1] {
      LastBindingFits(elems, layers[..|layers| - 1], i);
    }
  }

  /** A field the validation rejects: unset, and no `padding` anywhere in its name. */
  predicate IsUnset(e: Element) {
    e.value == Undefined && !Contains(e.name, "padding")
  }

  function UnsetFrom(elems: seq<Element>, from: nat): (r: int)
    requires from <= |elems|
    ensures r == -1 || from <= r < |elems|
    ensures r == -1 ==> forall i :: from <= i < |elems| ==> !IsUnset(elems[i])
    ensures r >= 0 ==> IsUnset(elems[r]) && forall i :: from <= i < r ==> !IsUnset(elems[i])
    decreases |elems| - from
  {
    if from == |elems| then -1 else if IsUnset(elems[from]) then from else UnsetFrom(elems, from + 1)
  }

  /** Index of the first field the validation rejects, or -1. */
  function FirstUnset(elems: seq<Element>): int {
    UnsetFrom(elems, 0)
  }

  // ---------------------------------------------------------------------------
  // Packing

  /** The words a set field writes at its offset. */
  function Encode(ty: FieldType, v: Value): (ws: seq<Word>)
    requires Fits(ty, v) && v != Undefined
    ensures |ws| == SlotCount(ty)
  {
    if ty == U32 then [IntBits(Int32Bits(v.x))]
    else if ty == Vec2u then [IntBits(Int32Bits(v.xs[0])), IntBits(Int32Bits(v.xs[1]))]
    else if ty == F32 then [FloatWord(v.x)]
    else seq(|v.xs|, j requires 0 <= j < |v.xs| => FloatWord(v.xs[j]))
  }

  /** Word `k` of the packed record: written by the last set field covering it, else still zero. */
  function WordAt(elems: seq<Element>, k: nat): Word
    requires IsLayout(elems)
    decreases |elems|
  {
    if |elems| == 0 then Zero
    else
      var e := elems[|elems| - 1];
      if e.offset <= k < e.offset + e.slotCount && e.value != Undefined then Encode(e.ty, e.value)[k - e.offset]
      else WordAt(elems[..|elems| - 1], k)
  }

  /** Adding field `i` to the first `i` fields changes exactly the words it covers, if it is set. */
  lemma WordAtStep(elems: seq<Element>, i: nat, k: nat)
    requires i < |elems| && IsLayout(elems[..i + 1])
    ensures IsLayout(elems[..i]) && WellFormed(elems[i])
    ensures WordAt(elems[..i + 1], k) ==
      var e := elems[i];
      if e.offset <= k < e.offset + e.slotCount && e.value != Undefined then Encode(e.ty, e.value)[k - e.offset]
      else WordAt(elems[..i], k)
  {
    assert elems[..i + 1][..i] == elems[..i];
    assert elems[..i + 1][i] == elems[i];
  }

  /** Words past the last field (the uniform round-up) stay zero. */
  lemma {:induction false} WordAtBeyondEnd(elems: seq<Element>, k: nat)
    requires IsLayout(elems) && End(elems) <= k
    ensures WordAt(elems, k) == Zero
    decreases |elems|
  {
    if |elems| > 0 {
      var prefix := elems[..|elems| - 1];
      assert IsLayout(prefix);
      if |prefix| > 0 {
        assert End(prefix) == elems[|elems| - 1].offset;
      }
      WordAtBeyondEnd(prefix, k);
    }
  }
  /**
   * The packed record: word `offset + j` of field `i` holds the field's
   * encoded component `j` (an int32 bit pattern for `u32`/`vec2u`, a float
   * otherwise), or zero when the field is unset, as padding is.
   */
  lemma {:induction false} WordAtField(elems: seq<Element>, i: nat, j: nat)
    requires IsLayout(elems) && i < |elems| && j < elems[i].slotCount
    ensures WellFormed(elems[i])
    ensures WordAt(elems, elems[i].offset + j) ==
      if elems[i].value == Undefined then Zero else Encode(elems[i].ty, elems[i].value)[j]
    decreases |elems|
  {
    var last := |elems| - 1;
    var prefix := elems[..last];
    var k := elems[i].offset + j;
    FieldWithinEnd(elems, i);
    if last > 0 {
      assert End(prefix) == elems[last].offset;
    }
    if i == last {
      if elems[i].value == Undefined {
        assert WordAt(elems, k) == WordAt(prefix, k);
        WordAtBeyondEnd(prefix, k);
      }
    } else {
      assert prefix[i] == elems[i];
      FieldWithinEnd(prefix, i);
      assert k < elems[last].offset;
      assert WordAt(elems, k) == WordAt(prefix, k);
      WordAtField(prefix, i, j);
    }
  }

  /**
   * Word `offset + j` of field `i` after resolution: the encoding of the
   * value the last layer naming the field gives it, zero if none does.
   */
  lemma ResolvedWord(elems: seq<Element>, layers: seq<map<string, Value>>, i: nat, j: nat)
    requires IsLayout(elems) && LayersFit(elems, layers) && i < |elems| && j < elems[i].slotCount
    ensures IsLayout(Resolve(elems, layers)) && Fits(elems[i].ty, LastBinding(layers, elems[i].name))
    ensures elems[i].slotCount == SlotCount(elems[i].ty)
    ensures WordAt(Resolve(elems, layers), elems[i].offset + j) ==
      var v := LastBinding(layers, elems[i].name);
      if v == Undefined then Zero else Encode(elems[i].ty, v)[j]
  {
    ResolveKeepsLayout(elems, layers);
    ResolveBinds(elems, layers);
    LastBindingFits(elems, layers, i);
    FieldWithinEnd(elems, i);
    WordAtField(Resolve(elems, layers), i, j);
  }

  /** The outcome of validating and packing one record of `total` words. */
  function Pack(elems: seq<Element>, total: nat): Result<seq<Word>, LayoutError>
    requires IsLayout(elems)
  {
    var u := FirstUnset(elems);
    if u >= 0 then Err(NeverSet(elems[u].name)) else Ok(seq(total, k requires 0 <= k < total => WordAt(elems, k)))
  }

  lemma ResolveOneFits(elems: seq<Element>, records: seq<map<string, Value>>, i: nat)
    requires IsLayout(elems) && LayersFit(elems, records) && i < |records|
    ensures LayersFit(elems, [records[i]])
    ensures IsLayout(Resolve(elems, [records[i]]))
  {
    assert LayersFit(elems, [records[i]]);
    ResolveKeepsLayout(elems, [records[i]]);
  }

  /** The outcome of packing every record in turn from the given field list; the first failing record wins. */
  function PackRecords(elems: seq<Element>, records: seq<map<string, Value>>, total: nat): Result<seq<Word>, LayoutError>
    requires IsLayout(elems) && LayersFit(elems, records)
    decreases |records|
  {
    if |records| == 0 then Ok([])
    else
      var n := |records| - 1;
      assert LayersFit(elems, records[..n]);
      ResolveOneFits(elems, records, n);
      match PackRecords(elems, records[..n], total)
      case Err(e) => Err(e)
      case Ok(prefix) =>
        match Pack(Resolve(elems, [records[n]]), total)
        case Err(e) => Err(e)
        case Ok(ws) => Ok(prefix + ws)
  }

  /** One more record: packing `records[..i+1]` extends packing `records[..i]` by record `i`. */
  lemma PackRecordsSnoc(elems: seq<Element>, records: seq<map<string, Value>>, i: nat, total: nat)
    requires IsLayout(elems) && LayersFit(elems, records) && i < |records|
    ensures LayersFit(elems, records[..i]) && LayersFit(elems, records[..i + 1])
    ensures IsLayout(Resolve(elems, [records[i]]))
    ensures PackRecords(elems, records[..i + 1], total) ==
      match PackRecords(elems, records[..i], total)
      case Err(e) => Err(e)
      case Ok(prefix) =>
        match Pack(Resolve(elems, [records[i]]), total)
        case Err(e) => Err(e)
        case Ok(ws) => Ok(prefix + ws)
  {
    assert records[..i + 1][..i] == records[..i];
    assert records[..i + 1][i] == records[i];
    assert LayersFit(elems, records[..i]);
    assert LayersFit(elems, records[..i + 1]);
    ResolveOneFits(elems, records, i);
  }

  /** `i * total`, counted out one record at a time. */
  function Stride(i: nat, total: nat): nat {
    if i == 0 then 0 else Stride(i - 1, total) + total
  }

  lemma {:induction false} StrideIsProduct(i: nat, total: nat)
    ensures Stride(i, total) == i * total
  {
    if i > 0 {
      StrideIsProduct(i - 1, total);
      assert i * total == (i - 1) * total + total;
    }
  }

  lemma {:induction false} StrideFits(i: nat, n: nat, total: nat)
    requires i < n
    ensures Stride(i + 1, total) == Stride(i, total) + total <= Stride(n, total)
    decreases n - i
  {
    if i + 1 < n {
      StrideFits(i + 1, n, total);
    }
  }

  /** A storage pack holds `total` words per record. */
  lemma {:induction false} PackRecordsLength(elems: seq<Element>, records: seq<map<string, Value>>, total: nat)
    requires IsLayout(elems) && LayersFit(elems, records)
    requires PackRecords(elems, records, total).Ok?
    ensures |PackRecords(elems, records, total).value| == Stride(|records|, total)
    decreases |records|
  {
    if |records| > 0 {
      var n := |records| - 1;
      PackRecordsSnoc(elems, records, n, total);
      assert records[..n + 1] == records;
      PackRecordsLength(elems, records[..n], total);
    }
  }

  /** Packing depends on the layout only, not on the values left in it by an earlier build. */
  lemma {:induction false} PackRecordsSameShape(a: seq<Element>, b: seq<Element>, records: seq<map<string, Value>>, total: nat)
    requires IsLayout(a) && IsLayout(b) && LayersFit(a, records) && LayersFit(b, records)
    requires ClearValues(a) == ClearValues(b)
    ensures PackRecords(a, records, total) == PackRecords(b, records, total)
    decreases |records|
  {
    if |records| > 0 {
      var n := |records| - 1;
      assert LayersFit(a, records[..n]) && LayersFit(b, records[..n]);
      PackRecordsSameShape(a, b, records[..n], total);
      assert Resolve(a, [records[n]]) == Resolve(b, [records[n]]);
    }
  }

  /** A successful storage pack begins with the pack of any prefix of the records. */
  lemma {:induction false} PackRecordsPrefix(elems: seq<Element>, records: seq<map<string, Value>>, total: nat, m: nat)
    requires IsLayout(elems) && LayersFit(elems, records)
    requires PackRecords(elems, records, total).Ok? && m <= |records|
    ensures LayersFit(elems, records[..m]) && PackRecords(elems, records[..m], total).Ok?
    ensures var whole, part := PackRecords(elems, records, total).value, PackRecords(elems, records[..m], total).value;
      |part| <= |whole| && whole[..|part|] == part
    decreases |records| - m
  {
    if m < |records| {
      PackRecordsPrefix(elems, records, total, m + 1);
      var r1 := records[..m + 1];
      assert r1[..|r1| - 1] == records[..m];
      PackRecordsLast(elems, r1, total);
      var whole := PackRecords(elems, records, total).value;
      var p1 := PackRecords(elems, r1, total).value;
      var part := PackRecords(elems, records[..m], total).value;
      assert p1 == part + Pack(Resolve(elems, [r1[|r1| - 1]]), total).value;
      assert whole[..|p1|] == p1;
      assert whole[..|part|] == p1[..|part|] == part;
    } else {
      assert records[..m] == records;
    }
  }

  /**
   * Record `i` of a storage buffer occupies words `[i*total, (i+1)*total)` and
   * is packed from `records[i]` alone: nothing carries over between records.
   */
  lemma PackRecordsStride(elems: seq<Element>, records: seq<map<string, Value>>, total: nat, i: nat, k: nat)
    requires IsLayout(elems) && LayersFit(elems, records)
    requires PackRecords(elems, records, total).Ok?
    requires i < |records| && k < total
    ensures Stride(i, total) + k < |PackRecords(elems, records, total).value|
    ensures LayersFit(elems, [records[i]]) && IsLayout(Resolve(elems, [records[i]]))
    ensures PackRecords(elems, records, total).value[Stride(i, total) + k] == WordAt(Resolve(elems, [records[i]]), k)
  {
    PackRecordsSplit(elems, records, total, i);
    var one := Resolve(elems, [records[i]]);
    var whole, part, ws := PackRecords(elems, records, total).value,
      PackRecords(elems, records[..i], total).value, Pack(one, total).value;
    PackWord(one, total, k);
    ConcatWord(whole, part, ws, k);
  }

  /** A successful pack starts with the pack of the first `i` records followed by record `i`'s words. */
  lemma PackRecordsSplit(elems: seq<Element>, records: seq<map<string, Value>>, total: nat, i: nat)
    requires IsLayout(elems) && LayersFit(elems, records)
    requires PackRecords(elems, records, total).Ok? && i < |records|
    ensures LayersFit(elems, records[..i]) && PackRecords(elems, records[..i], total).Ok?
    ensures LayersFit(elems, [records[i]]) && IsLayout(Resolve(elems, [records[i]]))
    ensures Pack(Resolve(elems, [records[i]]), total).Ok?
    ensures var whole, part, ws := PackRecords(elems, records, total).value,
      PackRecords(elems, records[..i], total).value, Pack(Resolve(elems, [records[i]]), total).value;
      |part| == Stride(i, total) && |part + ws| <= |whole| && whole[..|part + ws|] == part + ws
  {
    ResolveOneFits(elems, records, i);
    PackRecordsPrefix(elems, records, total, i + 1);
    var r1 := records[..i + 1];
    assert r1[..|r1| - 1] == records[..i] && r1[|r1| - 1] == records[i];
    PackRecordsLast(elems, r1, total);
    PackRecordsLength(elems, records[..i], total);
  }

  lemma ConcatWord(whole: seq<Word>, prefix: seq<Word>, ws: seq<Word>, k: nat)
    requires |prefix + ws| <= |whole| && whole[..|prefix + ws|] == prefix + ws && k < |ws|
    ensures |prefix| + k < |whole| && whole[|prefix| + k] == ws[k]
  {
    assert whole[|prefix| + k] == whole[..|prefix + ws|][|prefix| + k];
  }

  /** An array whose words agree with `WordAt` everywhere holds the pack of a layout with nothing unset. */
  lemma PackAll(elems: seq<Element>, total: nat, out: array<Word>)
    requires IsLayout(elems) && FirstUnset(elems) < 0 && out.Length == total
    requires forall k :: 0 <= k < total ==> out[k] == WordAt(elems, k)
    ensures Pack(elems, total) == Ok(out[..])
  {
    assert out[..] == seq(total, k requires 0 <= k < total => WordAt(elems, k));
  }

  /** Word `k` of a successful pack is the word `WordAt` finds there. */
  lemma PackWord(elems: seq<Element>, total: nat, k: nat)
    requires IsLayout(elems) && Pack(elems, total).Ok? && k < total
    ensures |Pack(elems, total).value| == total && Pack(elems, total).value[k] == WordAt(elems, k)
  {
  }

  /** A successful storage pack is the pack of all records but the last, then the last record's words. */
  lemma PackRecordsLast(elems: seq<Element>, records: seq<map<string, Value>>, total: nat)
    requires IsLayout(elems) && LayersFit(elems, records)
    requires PackRecords(elems, records, total).Ok? && |records| > 0
    ensures LayersFit(elems, records[..|records| - 1])
    ensures PackRecords(elems, records[..|records| - 1], total).Ok?
    ensures IsLayout(Resolve(elems, [records[|records| - 1]]))
    ensures Pack(Resolve(elems, [records[|records| - 1]]), total).Ok?
    ensures PackRecords(elems, records, total).value ==
      PackRecords(elems, records[..|records| - 1], total).value + Pack(Resolve(elems, [records[|records| - 1]]), total).value
  {
    var n := |records| - 1;
    PackRecordsSnoc(elems, records, n, total);
    assert records[..n + 1] == records;
  }

  /** A storage pack fails exactly when some record leaves a non-padding field unset. */
  lemma {:induction false} PackRecordsFails(elems: seq<Element>, records: seq<map<string, Value>>, total: nat)
    requires IsLayout(elems) && LayersFit(elems, records)
    ensures PackRecords(elems, records, total).Err? <==>
      exists i :: 0 <= i < |records| && FirstUnset(Resolve(elems, [records[i]])) >= 0
    decreases |records|
  {
    if |records| > 0 {
      var n := |records| - 1;
      PackRecordsSnoc(elems, records, n, total);
      assert records[..n + 1] == records;
      PackRecordsFails(elems, records[..n], total);
      forall i | 0 <= i < n ensures records[..n][i] == records[i] { }
    }
  }

  /** Once a prefix of the records fails, so does the whole list, with the same error. */
  lemma {:induction false} PackRecordsPrefixErr(elems: seq<Element>, records: seq<map<string, Value>>, n: nat, total: nat)
    requires IsLayout(elems) && LayersFit(elems, records) && n <= |records|
    requires LayersFit(elems, records[..n])
    requires PackRecords(elems, records[..n], total).Err?
    ensures PackRecords(elems, records, total) == PackRecords(elems, records[..n], total)
    decreases |records| - n
  {
    if n < |records| {
      PackRecordsSnoc(elems, records, n, total);
      PackRecordsPrefixErr(elems, records, n + 1, total);
    } else {
      assert records[..n] == records;
    }
  }

  /** Clearing the values keeps every layer fitting. */
  lemma ClearedFits(elems: seq<Element>, layers: seq<map<string, Value>>)
    requires LayersFit(elems, layers)
    ensures LayersFit(ClearValues(elems), layers)
  {
    assert ClearValues(ClearValues(elems)) == ClearValues(elems);
    forall l | 0 <= l < |layers| ensures LayerFits(ClearValues(elems), layers[l]) {
      SameShapeFits(ClearValues(elems), elems, layers[l]);
    }
  }

  lemma SameShapeFits(a: seq<Element>, b: seq<Element>, layer: map<string, Value>)
    requires ClearValues(a) == ClearValues(b) && LayerFits(b, layer)
    ensures LayerFits(a, layer)
  {
    forall i | 0 <= i < |a| ensures a[i].name == b[i].name && a[i].ty == b[i].ty {
      assert ClearValues(a)[i] == ClearValues(b)[i];
    }
  }

  /** Writes the words of one set field at `at`, leaving every other word alone. */
  method WriteField(out: array<Word>, at: nat, e: Element)
    requires WellFormed(e) && e.value != Undefined && at + e.slotCount <= out.Length
    modifies out
    ensures forall k :: 0 <= k < out.Length ==>
      out[k] == if at <= k < at + e.slotCount then Encode(e.ty, e.value)[k - at] else old(out[k])
  {
    if e.ty == U32 {
      out[at] := IntBits(Int32Bits(e.value.x));
    } else if e.ty == Vec2u {
      out[at] := IntBits(Int32Bits(e.value.xs[0]));
      out[at + 1] := IntBits(Int32Bits(e.value.xs[1]));
    } else if e.ty == F32 {
      out[at] := FloatWord(e.value.x);
    } else {
      for j := 0 to |e.value.xs|
        invariant forall k :: 0 <= k < out.Length && !(at <= k < at + j) ==> out[k] == old(out[k])
        invariant forall k :: at <= k < at + j ==> out[k] == FloatWord(e.value.xs[k - at])
      {
        out[at + j] := FloatWord(e.value.xs[j]);
      }
    }
  }

  // ---------------------------------------------------------------------------
  // The factory object

  class Factory {
    const name: string
    const mode: Mode
    var elements: seq<Element>
    var compiled: bool
    var paddingCount: nat
    var totalCount: nat

    ghost predicate Valid()
      reads this`elements, this`compiled, this`totalCount
    {
      IsLayout(elements) && End(elements) <= totalCount && (!compiled ==> End(elements) == totalCount)
    }

    constructor (name: string, mode: Mode)
      ensures Valid() && this.name == name && this.mode == mode
      ensures elements == [] && !compiled && paddingCount == 0 && totalCount == 0
    {
      this.name := name;
      this.mode := mode;
      elements := [];
      compiled := false;
      paddingCount := 0;
      totalCount := 0;
    }

    /**
     * Appends a field, after `totalCount % alignment` padding fields; an
     * unsupported type throws before anything changes.
     */
    method Add(fieldName: string, ty: string) returns (r: Outcome<LayoutError>)
      requires Valid() && !compiled
      modifies this
      ensures Valid() && !compiled
      ensures ParseType(ty).Err? ==>
        && r == Fail(UnsupportedType(ty))
        && elements == old(elements) && paddingCount == old(paddingCount) && totalCount == old(totalCount)
      ensures ParseType(ty).Ok? ==>
        var t := ParseType(ty).value;
        var pad := PaddingBefore(old(totalCount), t);
        && r == Pass
        && elements == old(elements) + Paddings(old(paddingCount), pad, old(totalCount))
                       + [Element(fieldName, t, Undefined, old(totalCount) + pad, SlotCount(t))]
        && paddingCount == old(paddingCount) + pad
        && totalCount == old(totalCount) + pad + SlotCount(t)
      // An `f32` field needs no alignment, so nothing precedes it.
      ensures ty == TypeName(F32) ==>
        && elements == old(elements) + [Element(fieldName, F32, Undefined, old(totalCount), 1)]
        && paddingCount == old(paddingCount) && totalCount == old(totalCount) + 1
      decreases if ty == "f32" then 0 else 2
    {
      var sizeResult := GetSize(ty);
      if sizeResult.Err? {
        return Fail(sizeResult.error);
      }
      // `getAlignment` throws for exactly the types `getSize` throws for.
      var requiredSlotCount := sizeResult.value;
      var requiredAlignment := GetAlignment(ty).value;
      var t := ParseType(ty).value;

      var alignmentAdjustment := totalCount % requiredAlignment;
      if alignmentAdjustment != 0 {
        AppendPadding(alignmentAdjustment);
      }

      AppendField(Element(fieldName, t, Undefined, totalCount, requiredSlotCount));
      if ty == TypeName(F32) {
        ParseTypeName(F32);
        assert elements == old(elements) + [Element(fieldName, F32, Undefined, old(totalCount), 1)];
      }
      return Pass;
    }

    /** Records a field placed at the current end of the layout. */
    method AppendField(field: Element)
      requires Valid() && !compiled
      requires WellFormed(field) && field.offset == totalCount
      modifies this
      ensures Valid() && !compiled
      ensures elements == old(elements) + [field] && paddingCount == old(paddingCount)
      ensures totalCount == old(totalCount) + field.slotCount
    {
      AppendToLayout(elements, field);
      elements := elements + [field];
      totalCount := totalCount + field.slotCount;
    }

    /** The padding loop: `count` single-word `paddingN` fields, each added through `Add`. */
    method AppendPadding(count: nat)
      requires Valid() && !compiled
      modifies this
      ensures Valid() && !compiled
      ensures elements == old(elements) + Paddings(old(paddingCount), count, old(totalCount))
      ensures paddingCount == old(paddingCount) + count && totalCount == old(totalCount) + count
      decreases 1
    {
      for i := 0 to count
        invariant Valid() && !compiled
        invariant elements == old(elements) + Paddings(old(paddingCount), i, old(totalCount))
        invariant paddingCount == old(paddingCount) + i && totalCount == old(totalCount) + i
      {
        ghost var prev := elements;
        var _ := Add(PaddingName(paddingCount), TypeName(F32));
        PaddingAppended(old(elements), prev, elements, old(paddingCount), i, old(totalCount));
        paddingCount := paddingCount + 1;
      }
    }

    /** Seals the layout; a uniform buffer's size is rounded up to a multiple of 16 words. */
    method Compile()
      requires Valid() && !compiled
      modifies this
      ensures Valid() && compiled
      ensures elements == old(elements) && paddingCount == old(paddingCount)
      ensures totalCount == if mode == Uniform then RoundUp16(old(totalCount)) else old(totalCount)
    {
      if mode == Uniform {
        totalCount := RoundUp16(totalCount);
      }
      compiled := true;
    }

    /** The WGSL struct declaration: one `name: type,` line per field, padding included. */
    method GetShaderText() returns (text: string)
      requires compiled
      ensures text == StructText(name, elements)
    {
      text := "struct " + name + "\n{\n";
      var lines := "";
      for i := 0 to |elements|
        invariant lines == FieldLines(elements[..i])
      {
        assert elements[..i + 1][..i] == elements[..i];
        lines := lines + FieldLine(elements[i]);
      }
      assert elements[..|elements|] == elements;
      text := text + lines + "};\n";
    }

    method GetTotalSizeInWords() returns (n: nat)
      requires compiled
      ensures n == totalCount
    {
      n := totalCount;
    }

    /** `elem.value = undefined` for every field. */
    method ClearElementValues()
      requires Valid()
      modifies this
      ensures Valid() && elements == ClearValues(old(elements))
      ensures compiled == old(compiled) && paddingCount == old(paddingCount) && totalCount == old(totalCount)
    {
      ghost var before := elements;
      for i := 0 to |elements|
        invariant compiled == old(compiled) && paddingCount == old(paddingCount) && totalCount == old(totalCount)
        invariant |elements| == |before|
        invariant forall j :: 0 <= j < i ==> elements[j] == before[j].(value := Undefined)
        invariant forall j :: i <= j < |elements| ==> elements[j] == before[j]
      {
        elements := elements[i := elements[i].(value := Undefined)];
      }
      assert ClearValues(elements) == ClearValues(before) by {
        forall j | 0 <= j < |elements| ensures ClearValues(elements)[j] == ClearValues(before)[j] { }
      }
      SameShapeLayout(elements, before);
    }

    /** Binds every field whose name the layer has to the layer's value for it. */
    method ApplyValueLayer(layer: map<string, Value>)
      requires Valid() && LayerFits(elements, layer)
      modifies this
      ensures Valid() && elements == ApplyLayer(old(elements), layer)
      ensures ClearValues(elements) == ClearValues(old(elements))
      ensures compiled == old(compiled) && paddingCount == old(paddingCount) && totalCount == old(totalCount)
    {
      ghost var before := elements;
      for i := 0 to |elements|
        invariant compiled == old(compiled) && paddingCount == old(paddingCount) && totalCount == old(totalCount)
        invariant |elements| == |before|
        invariant forall j :: 0 <= j < i ==> elements[j] == ApplyLayer(before, layer)[j]
        invariant forall j :: i <= j < |elements| ==> elements[j] == before[j]
      {
        if elements[i].name in layer {
          elements := elements[i := elements[i].(value := layer[elements[i].name])];
        }
      }
      forall j | 0 <= j < |elements| ensures Fits(elements[j].ty, elements[j].value) {
        FieldWithinEnd(before, j);
      }
      assert ClearValues(elements) == ClearValues(before) by {
        forall j | 0 <= j < |elements| ensures ClearValues(elements)[j] == ClearValues(before)[j] { }
      }
      SameShapeLayout(elements, before);
    }

    /** Applies the layers in order, each over the result of the ones before. */
    method ApplyValueLayers(layers: seq<map<string, Value>>)
      requires Valid() && LayersFit(elements, layers)
      modifies this
      ensures Valid() && elements == ApplyLayers(old(elements), layers)
      ensures ClearValues(elements) == ClearValues(old(elements))
      ensures compiled == old(compiled) && paddingCount == old(paddingCount) && totalCount == old(totalCount)
    {
      for l := 0 to |layers|
        invariant Valid() && compiled == old(compiled) && paddingCount == old(paddingCount) && totalCount == old(totalCount)
        invariant elements == ApplyLayers(old(elements), layers[..l])
        invariant ClearValues(elements) == ClearValues(old(elements))
      {
        assert layers[..l + 1][..l] == layers[..l];
        SameShapeFits(elements, old(elements), layers[l]);
        ApplyValueLayer(layers[l]);
      }
      assert layers[..|layers|] == layers;
    }

    /** The validation scan: index of the first unset non-padding field, or -1. */
    method FindUnset() returns (u: int)
      ensures u == FirstUnset(elements)
    {
      u := -1;
      var i := 0;
      while i < |elements|
        invariant 0 <= i <= |elements|
        invariant UnsetFrom(elements, 0) == UnsetFrom(elements, i)
      {
        if elements[i].value == Undefined && IndexOf(elements[i].name, "padding") == -1 {
          u := i;
          return;
        }
        i := i + 1;
      }
    }

    /** Writes every set field's words into `out` from word `base` on; unset fields are skipped. */
    method WriteValues(out: array<Word>, base: nat)
      requires Valid() && base + totalCount <= out.Length
      requires forall k :: base <= k < base + totalCount ==> out[k] == Zero
      modifies out
      ensures forall k :: base <= k < base + totalCount ==> out[k] == WordAt(elements, k - base)
      ensures forall k :: 0 <= k < out.Length && !(base <= k < base + totalCount) ==> out[k] == old(out[k])
    {
      assert elements[..0] == [];
      for i := 0 to |elements|
        invariant IsLayout(elements[..i])
        invariant forall k :: base <= k < base + totalCount ==> out[k] == WordAt(elements[..i], k - base)
        invariant forall k :: 0 <= k < out.Length && !(base <= k < base + totalCount) ==> out[k] == old(out[k])
      {
        var e := elements[i];
        FieldWithinEnd(elements, i);
        LayoutPrefix(elements, i + 1);
        ghost var written := out[..];
        if e.value != Undefined {
          WriteField(out, base + e.offset, e);
        }
        forall k | base <= k < base + totalCount ensures out[k] == WordAt(elements[..i + 1], k - base) {
          WordAtStep(elements, i, k - base);
          assert out[k] == if e.value != Undefined && base + e.offset <= k < base + e.offset + e.slotCount
                           then Encode(e.ty, e.value)[k - base - e.offset] else written[k];
        }
      }
      assert elements[..|elements|] == elements;
    }

    /**
     * Clears every value, applies the layers in order, validates, and packs
     * `totalCount` words (the buffer handed to the device).
     */
    method ConstructUniformBuffer(layers: seq<map<string, Value>>) returns (r: Result<seq<Word>, LayoutError>)
      requires Valid() && compiled && mode == Uniform
      requires LayersFit(elements, layers)
      modifies this
      ensures Valid() && compiled && paddingCount == old(paddingCount) && totalCount == old(totalCount)
      ensures elements == Resolve(old(elements), layers)
      ensures r == Pack(elements, totalCount)
    {
      ClearedFits(elements, layers);
      ClearElementValues();
      ApplyValueLayers(layers);

      var u := FindUnset();
      if u >= 0 {
        return Err(NeverSet(elements[u].name));
      }

      var ws := WriteUniform();
      r := Ok(ws);
    }

    /** The uniform array: `totalCount` zeroed words, then every set field written at its offset. */
    method WriteUniform() returns (ws: seq<Word>)
      requires Valid() && FirstUnset(elements) < 0
      ensures Pack(elements, totalCount) == Ok(ws)
    {
      var out := new Word[totalCount](_ => Zero);
      WriteValues(out, 0);
      PackAll(elements, totalCount, out);
      ws := out[..];
    }

    /**
     * Packs one record per map at a stride of `totalCount` words; each record
     * starts from cleared values and takes its values from its own map only.
     */
    method ConstructStorageBuffer(records: seq<map<string, Value>>) returns (r: Result<seq<Word>, LayoutError>)
      requires Valid() && compiled && mode == Storage
      requires LayersFit(elements, records)
      modifies this
      ensures Valid() && compiled && paddingCount == old(paddingCount) && totalCount == old(totalCount)
      ensures ClearValues(elements) == ClearValues(old(elements))
      ensures r == PackRecords(old(elements), records, totalCount)
    {
      ghost var fields, total, padding := elements, totalCount, paddingCount;
      var elementCount := |records|;
      var storageValues := new Word[elementCount * totalCount](_ => Zero);
      StrideIsProduct(elementCount, total);
      var outputOffset: nat := 0;
      assert records[..0] == [] && storageValues[..0] == [];
      for i := 0 to elementCount
        invariant StorageProgress(fields, records, total, padding, i, storageValues, outputOffset)
      {
        var step, next := StoreRecord(fields, records, total, padding, i, storageValues, outputOffset);
        if step.Fail? {
          return Err(step.error);
        }
        outputOffset := next;
      }
      assert records[..elementCount] == records;
      assert storageValues[..outputOffset] == storageValues[..];
      r := Ok(storageValues[..]);
    }

    /**
     * The state of the record loop after `i` records: the first `offset`
     * words hold those records' packing and the rest is still zero; the
     * layout itself is unchanged.
     */
    ghost predicate StorageProgress(fields: seq<Element>, records: seq<map<string, Value>>, total: nat, padding: nat,
                                    i: nat, out: array<Word>, offset: nat)
      reads this, out
    {
      && Valid() && compiled && totalCount == total && paddingCount == padding
      && IsLayout(fields) && LayersFit(fields, records) && i <= |records|
      && ClearValues(elements) == ClearValues(fields)
      && offset == Stride(i, total) && offset <= out.Length == Stride(|records|, total)
      && LayersFit(fields, records[..i])
      && PackRecords(fields, records[..i], total) == Ok(out[..offset])
      && (forall k :: offset <= k < out.Length ==> out[k] == Zero)
    }

    /**
     * The body of the record loop for record `i`: packs it at `offset`, after
     * the records before it, or reports the first unset field.
     */
    method StoreRecord(ghost fields: seq<Element>, records: seq<map<string, Value>>, ghost total: nat, ghost padding: nat,
                       i: nat, out: array<Word>, offset: nat) returns (step: Outcome<LayoutError>, next: nat)
      requires StorageProgress(fields, records, total, padding, i, out, offset) && i < |records|
      modifies this, out
      ensures step.Fail? ==> Valid() && compiled && totalCount == total && paddingCount == padding
      ensures step.Fail? ==> ClearValues(elements) == ClearValues(fields)
      ensures step.Fail? ==> PackRecords(fields, records, total) == Err(step.error)
      ensures step.Pass? ==> StorageProgress(fields, records, total, padding, i + 1, out, next)
    {
      StrideFits(i, |records|, total);
      SameShapeFits(elements, fields, records[i]);
      ghost var before := out[..];
      var u := PackRecord(records[i], out, offset);
      assert elements == Resolve(fields, [records[i]]);
      next := offset + totalCount;
      if u >= 0 {
        step := Fail(NeverSet(elements[u].name));
        StorageFails(fields, records, i, total);
      } else {
        step := Pass;
        ghost var after := out[..];
        StorageStep(fields, records, i, totalCount, offset, elements, before, after);
        assert out[..next] == after[..next];
      }
    }
    /**
     * One record of a storage buffer: clear, bind the record's values,
     * validate, and on success write the record's words from `base` on.
     */
    method PackRecord(record: map<string, Value>, out: array<Word>, base: nat) returns (u: int)
      requires Valid() && compiled && LayerFits(elements, record)
      requires base + totalCount <= out.Length
      requires forall k :: base <= k < base + totalCount ==> out[k] == Zero
      modifies this, out
      ensures Valid() && compiled && paddingCount == old(paddingCount) && totalCount == old(totalCount)
      ensures ClearValues(elements) == ClearValues(old(elements))
      ensures elements == Resolve(old(elements), [record])
      ensures u == FirstUnset(elements)
      ensures u >= 0 ==> out[..] == old(out[..])
      ensures u < 0 ==> forall k :: base <= k < base + totalCount ==> out[k] == WordAt(elements, k - base)
      ensures forall k :: 0 <= k < out.Length && !(base <= k < base + totalCount) ==> out[k] == old(out[k])
    {
      ClearElementValues();
      ApplyValueLayers([record]);
      u := FindUnset();
      if u < 0 {
        WriteValues(out, base);
      }
    }
  }

  /** The words of record `i`, written after those of the records before it, extend the packed prefix. */
  lemma StorageStep(elems: seq<Element>, records: seq<map<string, Value>>, i: nat, total: nat, offset: nat,
                    current: seq<Element>, before: seq<Word>, after: seq<Word>)
    requires IsLayout(elems) && LayersFit(elems, records) && i < |records|
    requires current == Resolve(elems, [records[i]]) && FirstUnset(current) < 0
    requires offset + total <= |before| == |after|
    requires LayersFit(elems, records[..i])
    requires PackRecords(elems, records[..i], total) == Ok(before[..offset])
    requires forall k :: 0 <= k < |after| && !(offset <= k < offset + total) ==> after[k] == before[k]
    requires IsLayout(current)
    requires forall k :: offset <= k < offset + total ==> after[k] == WordAt(current, k - offset)
    ensures LayersFit(elems, records[..i + 1])
    ensures PackRecords(elems, records[..i + 1], total) == Ok(after[..offset + total])
  {
    PackRecordsSnoc(elems, records, i, total);
    var ws := seq(total, k requires 0 <= k < total => WordAt(current, k));
    assert Pack(current, total) == Ok(ws);
    assert after[..offset + total] == before[..offset] + ws by {
      forall k | 0 <= k < offset + total ensures after[k] == (before[..offset] + ws)[k] {
        if k >= offset {
          assert ws[k - offset] == WordAt(current, k - offset);
        }
      }
    }
  }

  /** A record that leaves a field unset fails the whole storage pack, once the records before it packed. */
  lemma StorageFails(elems: seq<Element>, records: seq<map<string, Value>>, i: nat, total: nat)
    requires IsLayout(elems) && LayersFit(elems, records) && i < |records|
    requires LayersFit(elems, records[..i]) && PackRecords(elems, records[..i], total).Ok?
    requires IsLayout(Resolve(elems, [records[i]])) && FirstUnset(Resolve(elems, [records[i]])) >= 0
    ensures var current := Resolve(elems, [records[i]]);
      PackRecords(elems, records, total) == Err(NeverSet(current[FirstUnset(current)].name))
  {
    PackRecordsSnoc(elems, records, i, total);
    PackRecordsPrefixErr(elems, records, i + 1, total);
  }

  /**
   * `add` of a field whose type's alignment the words in use already meet:
   * the field lands at the current end with no padding before it.
   */
  method AddAligned(f: Factory, fieldName: string, t: FieldType)
    requires f.Valid() && !f.compiled && Aligned(f.totalCount, t)
    modifies f
    ensures f.Valid() && !f.compiled
    ensures f.elements == old(f.elements) + [Element(fieldName, t, Undefined, old(f.totalCount), SlotCount(t))]
    ensures f.totalCount == old(f.totalCount) + SlotCount(t) && f.paddingCount == old(f.paddingCount)
  {
    ParseTypeName(t);
    var _ := f.Add(fieldName, TypeName(t));
    assert Paddings(old(f.paddingCount), 0, old(f.totalCount)) == [];
  }
}
