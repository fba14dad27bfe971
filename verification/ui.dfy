/**
 * The shape editor's state: the set of shapes, which one the mouse is
 * over, which one is grabbed, and the drag in progress, together with the
 * handlers that change them.
 *
 * JavaScript compares shapes by reference. Here every shape object lives
 * in `objects` under a handle that is never reused, and the editor's set of
 * shapes is the insertion-ordered sequence `shapes` of distinct handles. A
 * grab or hover may outlive the shape's membership in the set, so
 * `objects` keeps every object ever made.
 */
module Ui {
  import opened Wrappers
  import opened Scene
  import Text

  /** Hover picks nothing farther than this from a shape's outline. */
  const SelectionRange: real := 50.0

  datatype Zone = Translation | Rotation

  /**
   * What the geometry reports for one shape at the mouse position: the
   * distance to its outline and, for a box, whether the mouse is off a
   * corner (the rotation zone).
   */
  datatype Contact = Contact(dist: real, zone: Zone)

  datatype Drag = Drag(mouseStartPosition: Vec2, mouseLastPosition: Vec2, shapeStartPosition: Vec2)

  function ShapeName(i: nat): (name: string)
    ensures |name| > 5 && name[..5] == "shape"
  {
    "shape" + Text.NatToString(i)
  }

  /** Names `shape0`, `shape1`, ... are pairwise distinct. */
  lemma ShapeNameInjective(i: nat, j: nat)
    ensures ShapeName(i) == ShapeName(j) ==> i == j
  {
    if ShapeName(i) == ShapeName(j) {
      assert Text.NatToString(i) == ShapeName(i)[5..];
      Text.NatToStringInjective(i, j);
    }
  }

  predicate Distinct<T(==)>(s: seq<T>) {
    forall i, j | 0 <= i < j < |s| :: s[i] != s[j]
  }

  /** `Set.delete`: the sequence without `h`, order kept. */
  function Remove(s: seq<nat>, h: nat): (r: seq<nat>)
    ensures forall x :: x in r <==> x in s && x != h
    ensures Distinct(s) ==> Distinct(r)
    ensures h !in s ==> r == s
    ensures Distinct(s) && h in s ==> |r| == |s| - 1
  {
    if |s| == 0 then []
    else if s[0] == h then Remove(s[1..], h)
    else
      assert Distinct(s) ==> s[0] !in s[1..];
      [s[0]] + Remove(s[1..], h)
  }

  /** Hover only considers circles and boxes; a circle is moved from anywhere. */
  function Probe(shape: Shape, contact: Contact): (p: Option<Contact>)
    ensures p.Some? <==> shape.shape == ShapeTypeCircle || shape.shape == ShapeTypeBox
    ensures p.Some? ==> p.value.dist == contact.dist
    ensures shape.shape == ShapeTypeCircle ==> p == Some(Contact(contact.dist, Translation))
  {
    if shape.shape == ShapeTypeCircle then Some(Contact(contact.dist, Translation))
    else if shape.shape == ShapeTypeBox then Some(contact)
    else None
  }

  predicate InRange(p: Option<Contact>) {
    p.Some? && p.value.dist <= SelectionRange
  }

  /**
   * Index `i` is what a left-to-right scan of the first `n` probes keeping
   * a strictly better candidate picks: in range, no farther than any other
   * candidate, and strictly nearer than every earlier one.
   */
  predicate IsPickAmong(ps: seq<Option<Contact>>, n: nat, i: int)
    requires n <= |ps|
  {
    0 <= i < n && InRange(ps[i]) &&
    forall j | 0 <= j < n && InRange(ps[j]) ::
      ps[i].value.dist <= ps[j].value.dist && (j < i ==> ps[i].value.dist < ps[j].value.dist)
  }

  predicate IsPick(ps: seq<Option<Contact>>, i: int) {
    IsPickAmong(ps, |ps|, i)
  }

  /** At most one shape can be picked: the pick is well defined. */
  lemma PickUnique(ps: seq<Option<Contact>>, i: int, j: int)
    requires IsPick(ps, i) && IsPick(ps, j)
    ensures i == j
  {
  }

  /** The hover scan over the probes, -1 when nothing is in range. */
  method FindNearest(ps: seq<Option<Contact>>) returns (pick: int)
    ensures pick == -1 <==> forall j | 0 <= j < |ps| :: !InRange(ps[j])
    ensures pick != -1 ==> IsPick(ps, pick)
  {
    pick := -1;
    var k := 0;
    while k < |ps|
      invariant 0 <= k <= |ps|
      invariant pick == -1 <==> forall j | 0 <= j < k :: !InRange(ps[j])
      invariant pick != -1 ==> IsPickAmong(ps, k, pick)
    {
      if InRange(ps[k]) && (pick == -1 || ps[k].value.dist < ps[pick].value.dist) {
        pick := k;
      }
      k := k + 1;
    }
  }

  /** `Math.floor(size / divisor)` for a canvas size and a resolution divisor. */
  function GridExtent(canvasSize: nat, simResDivisor: nat): (cells: nat)
    requires simResDivisor > 0
    ensures cells * simResDivisor <= canvasSize < (cells + 1) * simResDivisor
  {
    canvasSize / simResDivisor
  }

  class Editor {
    var objects: map<nat, Shape>
    var shapes: seq<nat>
    var nextHandle: nat
    var isMouseDown: bool
    var mousePosition: Vec2
    var gridSizeX: nat
    var gridSizeY: nat
    var mouseOverObject: Option<nat>
    var mouseOverZone: Option<Zone>
    var grabbedObject: Option<nat>
    var dragging: Option<Drag>

    ghost predicate Valid()
      reads this`objects, this`shapes, this`nextHandle, this`mouseOverObject, this`grabbedObject
    {
      Distinct(shapes) && ShapesKnown() &&
      (forall h | h in objects :: h < nextHandle) &&
      (mouseOverObject.Some? ==> mouseOverObject.value in objects) &&
      (grabbedObject.Some? ==> grabbedObject.value in objects)
    }

    /** Every shape of the set has its object. */
    predicate ShapesKnown()
      reads this`objects, this`shapes
    {
      forall h | h in shapes :: h in objects
    }

    /** Some shape of the set carries this id. */
    predicate IdInUse(id: string)
      reads this`objects, this`shapes
    {
      exists k | 0 <= k < |shapes| :: shapes[k] in objects && objects[shapes[k]].id == id
    }

    /** `shape<i>` with the least i that no shape of the set is called. */
    ghost predicate LeastFreeName(name: string)
      reads this`objects, this`shapes
    {
      exists i: nat :: name == ShapeName(i) && !IdInUse(name) &&
        forall j: nat | j < i :: IdInUse(ShapeName(j))
    }

    function Ids(): set<string>
      reads this`objects, this`shapes
    {
      set k | 0 <= k < |shapes| && shapes[k] in objects :: objects[shapes[k]].id
    }

    /** The ids in use are exactly the ids of the set. */
    lemma IdsInUse(id: string)
      ensures id in Ids() <==> IdInUse(id)
    {
    }

    constructor ()
      ensures Valid()
      ensures shapes == [] && objects == map[] && nextHandle == 0
      ensures !isMouseDown && mousePosition == Vec2(0.0, 0.0)
      ensures gridSizeX == 512 && gridSizeY == 512
      ensures mouseOverObject.None? && mouseOverZone.None? && grabbedObject.None? && dragging.None?
    {
      objects := map[];
      shapes := [];
      nextHandle := 0;
      isMouseDown := false;
      mousePosition := Vec2(0.0, 0.0);
      gridSizeX := 512;
      gridSizeY := 512;
      mouseOverObject := None;
      mouseOverZone := None;
      grabbedObject := None;
      dragging := None;
    }

    /** Adds a new shape object to the set, under a fresh handle. */
    method AddShape(shape: Shape) returns (h: nat)
      requires Valid()
      modifies this`objects, this`shapes, this`nextHandle
      ensures Valid()
      ensures h == old(nextHandle) && h !in old(objects)
      ensures objects == old(objects)[h := shape] && shapes == old(shapes) + [h]
    {
      h := nextHandle;
      assert forall k | 0 <= k < |shapes| :: shapes[k] in objects && shapes[k] != h;
      objects := objects[h := shape];
      shapes := shapes + [h];
      nextHandle := nextHandle + 1;
    }

    method WindowResize(canvasWidth: nat, canvasHeight: nat, simResDivisor: nat)
      requires simResDivisor > 0
      modifies this`gridSizeX, this`gridSizeY
      ensures gridSizeX * simResDivisor <= canvasWidth < (gridSizeX + 1) * simResDivisor
      ensures gridSizeY * simResDivisor <= canvasHeight < (gridSizeY + 1) * simResDivisor
    {
      gridSizeX := GridExtent(canvasWidth, simResDivisor);
      gridSizeY := GridExtent(canvasHeight, simResDivisor);
    }

    method MouseMove(position: Vec2)
      modifies this`mousePosition
      ensures mousePosition == position
    {
      mousePosition := position;
    }

    /** Grab whatever the mouse is over, or let go; paint when nothing is grabbed. */
    method MouseDown()
      requires Valid()
      modifies this`grabbedObject, this`dragging, this`isMouseDown
      ensures Valid()
      ensures grabbedObject == mouseOverObject
      ensures mouseOverObject.Some? ==>
        dragging == Some(Drag(mousePosition, mousePosition, objects[mouseOverObject.value].position))
      ensures mouseOverObject.None? ==> dragging == old(dragging)
      ensures isMouseDown <==> grabbedObject.None?
    {
      if mouseOverObject.Some? && grabbedObject != mouseOverObject {
        grabbedObject := mouseOverObject;
      } else if grabbedObject.Some? && grabbedObject != mouseOverObject {
        grabbedObject := mouseOverObject;
      }
      if grabbedObject.Some? && grabbedObject == mouseOverObject {
        dragging := Some(Drag(mousePosition, mousePosition, objects[grabbedObject.value].position));
      }
      isMouseDown := grabbedObject.None?;
    }

    method MouseUp()
      modifies this`isMouseDown, this`dragging
      ensures !isMouseDown && dragging.None?
    {
      isMouseDown := false;
      dragging := None;
    }

    method MouseOut()
      modifies this`isMouseDown, this`dragging
      ensures !isMouseDown && dragging.None?
    {
      isMouseDown := false;
      dragging := None;
    }

    /** The probes of the shapes of the set, in set order. */
    function Probes(contacts: seq<Contact>): (ps: seq<Option<Contact>>)
      reads this`objects, this`shapes
      requires forall k | 0 <= k < |shapes| :: shapes[k] in objects
      requires |contacts| == |shapes|
      ensures |ps| == |shapes|
      ensures forall k | 0 <= k < |ps| :: ps[k] == Probe(objects[shapes[k]], contacts[k])
    {
      var objs := objects;
      var order := shapes;
      seq(|order|, k requires 0 <= k < |order| => Probe(objs[order[k]], contacts[k]))
    }

    /**
     * The hover state after a selection pass: nothing is hovered exactly
     * when no probe is in range, the zone is kept when nothing is hovered
     * (`zone0` is the zone before), and otherwise the hovered shape is the
     * pick, with the pick's zone.
     */
    ghost predicate Hovered(contacts: seq<Contact>, zone0: Option<Zone>)
      reads this`objects, this`shapes, this`mouseOverObject, this`mouseOverZone
      requires ShapesKnown() && |contacts| == |shapes|
    {
      var ps := Probes(contacts);
      (mouseOverObject.None? <==> forall j | 0 <= j < |ps| :: !InRange(ps[j])) &&
      (mouseOverObject.None? ==> mouseOverZone == zone0) &&
      (mouseOverObject.Some? ==> exists i | IsPick(ps, i) ::
         mouseOverObject == Some(shapes[i]) && mouseOverZone == Some(ps[i].value.zone))
    }

    /**
     * The drag state after one drag step from `objects0` and `drag0`: in the
     * translation zone the grabbed shape sits at the mouse offset from the
     * drag start added to the shape's start and the drag is kept; elsewhere
     * the shape is turned by `angleIncrement` and the drag remembers the
     * mouse position. No other object changes.
     */
    ghost predicate Dragged(objects0: map<nat, Shape>, drag0: Drag, angleIncrement: real)
      reads this`objects, this`dragging, this`grabbedObject, this`mouseOverZone, this`mousePosition
      requires grabbedObject.Some? && grabbedObject.value in objects0
    {
      var g := grabbedObject.value;
      if mouseOverZone == Some(Translation) then
        objects == objects0[g := objects0[g].(position :=
          mousePosition.Minus(drag0.mouseStartPosition).Plus(drag0.shapeStartPosition))] &&
        dragging == Some(drag0)
      else
        objects == objects0[g := objects0[g].(rotation := objects0[g].rotation + angleIncrement)] &&
        dragging == Some(drag0.(mouseLastPosition := mousePosition))
    }

    /**
     * Hover selection: forget the hovered shape, then pick the nearest
     * shape in range; the zone changes only when a shape is picked.
     */
    method SelectHovered(contacts: seq<Contact>)
      requires Valid()
      requires |contacts| == |shapes|
      modifies this`mouseOverObject, this`mouseOverZone
      ensures Valid()
      ensures Hovered(contacts, old(mouseOverZone))
    {
      var ps := Probes(contacts);
      var pick := FindNearest(ps);
      mouseOverObject := None;
      if pick != -1 {
        assert InRange(ps[pick]);
        mouseOverObject := Some(shapes[pick]);
        mouseOverZone := Some(ps[pick].value.zone);
      }
      assert ps == Probes(contacts);
    }

    /**
     * Moving the grabbed shape while dragging: in the translation zone it
     * follows the mouse from where the drag started, elsewhere it turns by
     * the angle the mouse swept around it since the last frame.
     */
    method DragGrabbed(angleIncrement: real)
      requires Valid()
      requires dragging.Some? && grabbedObject.Some?
      modifies this`objects, this`dragging
      ensures Valid()
      ensures objects.Keys == old(objects).Keys
      ensures Dragged(old(objects), old(dragging).value, angleIncrement)
    {
      var g := grabbedObject.value;
      var d := dragging.value;
      if mouseOverZone == Some(Translation) {
        var offset := mousePosition.Minus(d.mouseStartPosition);
        objects := objects[g := objects[g].(position := offset.Plus(d.shapeStartPosition))];
      } else {
        dragging := Some(d.(mouseLastPosition := mousePosition));
        objects := objects[g := objects[g].(rotation := objects[g].rotation + angleIncrement)];
      }
    }

    /**
     * The editor part of a frame: nothing when the UI is hidden, the drag
     * when one is in progress, otherwise hover selection. A drag can outlive
     * its grab (deleting the grabbed shape lets go of it but not of the
     * drag); reading the position of the grabbed shape then throws a
     * `TypeError` before anything changes.
     */
    method Update(uiIsHidden: bool, contacts: seq<Contact>, angleIncrement: real) returns (o: Outcome<string>)
      requires Valid()
      requires |contacts| == |shapes|
      modifies this`objects, this`dragging, this`mouseOverObject, this`mouseOverZone
      ensures Valid()
      ensures o.Fail? <==> !uiIsHidden && old(dragging).Some? && grabbedObject.None?
      ensures o.Fail? ==> o.error == "TypeError"
      ensures uiIsHidden || o.Fail? ==>
        (objects == old(objects) && dragging == old(dragging) &&
         mouseOverObject == old(mouseOverObject) && mouseOverZone == old(mouseOverZone))
      ensures !uiIsHidden && old(dragging).None? ==>
        (objects == old(objects) && dragging.None? &&
         (mouseOverObject.None? <==> forall j | 0 <= j < |shapes| :: !InRange(Probes(contacts)[j])))
      ensures !uiIsHidden && old(dragging).Some? ==>
        (mouseOverObject == old(mouseOverObject) && mouseOverZone == old(mouseOverZone) &&
         objects.Keys == old(objects).Keys)
      ensures !uiIsHidden && old(dragging).None? ==> Hovered(contacts, old(mouseOverZone))
      ensures !uiIsHidden && old(dragging).Some? && o.Pass? ==>
        grabbedObject.Some? && grabbedObject.value in old(objects) &&
        Dragged(old(objects), old(dragging).value, angleIncrement)
    {
      o := Pass;
      if !uiIsHidden {
        if dragging.Some? {
          if grabbedObject.None? {
            return Fail("TypeError");
          }
          DragGrabbed(angleIncrement);
        } else {
          SelectHovered(contacts);
        }
      }
    }

    /** Whether some shape of the set is called `id`, by a scan that stops at the first match. */
    method HasShapeWithId(id: string) returns (found: bool)
      requires ShapesKnown()
      ensures found == IdInUse(id)
    {
      found := false;
      for k := 0 to |shapes|
        invariant forall m | 0 <= m < k :: objects[shapes[m]].id != id
      {
        if objects[shapes[k]].id == id {
          found := true;
          return;
        }
      }
    }

    /** Some `shape<i>` is free: the set has finitely many ids. */
    lemma SomeNameFree() returns (bound: nat)
      ensures !IdInUse(ShapeName(bound))
    {
      bound := 0;
      while IdInUse(ShapeName(bound))
        invariant NamesBelow(bound) <= Ids()
        decreases |Ids() - NamesBelow(bound)|
      {
        IdsInUse(ShapeName(bound));
        TakenNameLeaves(Ids(), bound);
        bound := bound + 1;
      }
    }

    /** Tries `shape0`, `shape1`, ... until one is not taken. */
    method AllocateShapeName() returns (name: string, ghost index: nat)
      requires ShapesKnown()
      ensures name == ShapeName(index) && !IdInUse(name)
      ensures forall j: nat | j < index :: IdInUse(ShapeName(j))
    {
      ghost var bound := SomeNameFree();
      var i: nat := 0;
      while true
        invariant forall j: nat | j < i :: IdInUse(ShapeName(j))
        invariant i <= bound
        decreases bound - i
      {
        var found := HasShapeWithId(ShapeName(i));
        if !found {
          return ShapeName(i), i;
        }
        i := i + 1;
      }
    }

    /** A drag in progress always has a grabbed shape to move. */
    predicate DragHasGrab()
      reads this`dragging, this`grabbedObject
    {
      dragging.Some? ==> grabbedObject.Some?
    }

    /**
     * Removes the grabbed shape from the set and lets go of it. The drag is
     * left as it was, so deleting in the middle of a drag leaves a drag
     * without a grab, on which `Update` throws.
     */
    method DeleteShape()
      requires Valid()
      modifies this`shapes, this`grabbedObject
      ensures Valid()
      ensures old(grabbedObject).None? ==> shapes == old(shapes)
      ensures old(grabbedObject).Some? ==> shapes == Remove(old(shapes), old(grabbedObject).value)
      ensures grabbedObject.None? && dragging == old(dragging)
      ensures old(dragging).Some? ==> !DragHasGrab()
    {
      if grabbedObject.Some? {
        shapes := Remove(shapes, grabbedObject.value);
        grabbedObject := None;
      }
    }

    /**
     * `DeleteShape` as evidently intended: letting go of the deleted shape
     * also ends the drag on it, so no drag outlives its grab.
     */
    method DeleteShapeReleasing()
      requires Valid()
      modifies this`shapes, this`grabbedObject, this`dragging
      ensures Valid()
      ensures old(DragHasGrab()) ==> DragHasGrab()
      ensures old(grabbedObject).None? ==> shapes == old(shapes) && dragging == old(dragging)
      ensures old(grabbedObject).Some? ==>
        shapes == Remove(old(shapes), old(grabbedObject).value) && dragging.None?
      ensures grabbedObject.None?
    {
      if grabbedObject.Some? {
        shapes := Remove(shapes, grabbedObject.value);
        grabbedObject := None;
        dragging := None;
      }
    }

    /**
     * The Delete key pressed during a drag, then the next frame with the
     * UI shown: the frame's `update` throws.
     */
    method DeleteWhileDragging(angleIncrement: real) returns (o: Outcome<string>)
      requires Valid() && dragging.Some?
      modifies this`objects, this`shapes, this`grabbedObject, this`dragging, this`mouseOverObject, this`mouseOverZone
      ensures o == Fail("TypeError")
    {
      DeleteShape();
      var contacts := seq(|shapes|, _ => Contact(0.0, Translation));
      o := Update(false, contacts, angleIncrement);
    }

    /** The same key and frame with the corrected delete: the frame's `update` succeeds. */
    method DeleteReleasingWhileDragging(angleIncrement: real) returns (o: Outcome<string>)
      requires Valid() && dragging.Some? && DragHasGrab()
      modifies this`objects, this`shapes, this`grabbedObject, this`dragging, this`mouseOverObject, this`mouseOverZone
      ensures o == Pass
    {
      DeleteShapeReleasing();
      var contacts := seq(|shapes|, _ => Contact(0.0, Translation));
      o := Update(false, contacts, angleIncrement);
    }

    /** Adds a copy of the grabbed shape under the least free `shape<i>` id. */
    method DuplicateShape()
      requires Valid()
      modifies this`objects, this`shapes, this`nextHandle
      ensures Valid()
      ensures old(grabbedObject).None? ==> objects == old(objects) && shapes == old(shapes)
      ensures old(grabbedObject).Some? ==>
        shapes == old(shapes) + [old(nextHandle)] && old(nextHandle) !in old(objects) &&
        objects.Keys == old(objects).Keys + {old(nextHandle)}
      ensures old(grabbedObject).Some? ==>
        var h := old(nextHandle);
        var copy := objects[h];
        var original := old(objects)[grabbedObject.value];
        objects == old(objects)[h := copy] &&
        copy == original.(id := copy.id) &&
        old(LeastFreeName(copy.id))
    {
      if grabbedObject.Some? {
        var name, index := AllocateShapeName();
        assert LeastFreeName(name);
        var copy := objects[grabbedObject.value].(id := name);
        var h := AddShape(copy);
      }
    }
  }

  function NamesBelow(i: nat): set<string> {
    set j: nat | j < i :: ShapeName(j)
  }

  /** Finding `shape<i>` taken leaves fewer taken ids to try. */
  lemma TakenNameLeaves(ids: set<string>, i: nat)
    requires NamesBelow(i) <= ids && ShapeName(i) in ids
    ensures NamesBelow(i + 1) <= ids
    ensures |ids - NamesBelow(i + 1)| < |ids - NamesBelow(i)|
  {
    NamesStep(i);
    assert ids - NamesBelow(i + 1) == (ids - NamesBelow(i)) - {ShapeName(i)};
  }

  lemma NamesStep(i: nat)
    ensures NamesBelow(i + 1) == NamesBelow(i) + {ShapeName(i)}
    ensures ShapeName(i) !in NamesBelow(i)
  {
    if ShapeName(i) in NamesBelow(i) {
      var j: nat :| j < i && ShapeName(j) == ShapeName(i);
      ShapeNameInjective(i, j);
    }
  }
}
