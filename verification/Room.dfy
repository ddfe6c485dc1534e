/** The walls and door panels of a room, seen from above: together they close the room with no gap
    and nothing reaching inside it. */
module Room {
  import opened Walls

  datatype RoomDoor = RoomDoor(side: int, width: real, centreOffset: real)

  datatype RoomPlan = RoomPlan(width: real, length: real, thickness: real, doors: seq<RoomDoor>)

  /** Footprint of a cuboid: centre and size. */
  datatype Box = Box(cx: real, cy: real, sx: real, sy: real) {
    ghost predicate Covers(x: real, y: real) {
      cx - sx / 2.0 <= x <= cx + sx / 2.0 && cy - sy / 2.0 <= y <= cy + sy / 2.0
    }
  }

  /** One wall: direction, length and centre. */
  datatype Wall = Wall(alongX: bool, length: real, cx: real, cy: real)

  /** North, East, South, West. */
  function WallLayout(width: real, length: real, thickness: real): (walls: seq<Wall>)
    ensures |walls| == 4
  {
    var hw, hl := width / 2.0, length / 2.0;
    [ Wall(true, width + 2.0 * thickness, 0.0, hl + thickness / 2.0),
      Wall(false, length, hw + thickness / 2.0, 0.0),
      Wall(true, width + 2.0 * thickness, 0.0, -hl - thickness / 2.0),
      Wall(false, length, -hw - thickness / 2.0, 0.0) ]
  }

  function WallOf(room: RoomPlan, side: nat): Wall
    requires side < 4
  {
    WallLayout(room.width, room.length, room.thickness)[side]
  }

  function DoorsOf(doors: seq<RoomDoor>, side: int): seq<Door> {
    if doors == [] then []
    else
      var first := if doors[0].side == side then [Door(doors[0].centreOffset, doors[0].width)] else [];
      first + DoorsOf(doors[1..], side)
  }

  function CutOf(room: RoomPlan, side: nat): Cut
    requires side < 4
  {
    CutWall(WallOf(room, side).length, DoorsOf(room.doors, side))
  }

  function PieceBox(wall: Wall, thickness: real, s: Segment): Box {
    if wall.alongX then Box(wall.cx + s.centre, wall.cy, s.length, thickness)
    else Box(wall.cx, wall.cy + s.centre, thickness, s.length)
  }

  function PieceBoxes(wall: Wall, thickness: real, segments: seq<Segment>): seq<Box> {
    if segments == [] then []
    else PieceBoxes(wall, thickness, segments[..|segments| - 1]) + [PieceBox(wall, thickness, segments[|segments| - 1])]
  }

  datatype Build =
    | Built(boxes: seq<Box>)
    | CutFailed(boxes: seq<Box>, cut: Cut)

  /** The walls from `side` on, after `built`; the first wall that cannot be cut ends the build. */
  function BuildFrom(room: RoomPlan, side: nat, built: seq<Box>): Build
    requires side <= 4
    decreases 4 - side
  {
    if side == 4 then Built(built)
    else if !CutOf(room, side).Segments? then CutFailed(built, CutOf(room, side))
    else BuildFrom(room, side + 1, built + PieceBoxes(WallOf(room, side), room.thickness, CutOf(room, side).segments))
  }

  method BuildWalls(room: RoomPlan) returns (build: Build)
    ensures build == BuildFrom(room, 0, [])
  {
    hide CutWall;
    var walls := WallLayout(room.width, room.length, room.thickness);
    var boxes: seq<Box> := [];
    for side := 0 to |walls|
      invariant BuildFrom(room, 0, []) == BuildFrom(room, side, boxes)
    {
      var wall := walls[side];
      var cut := SegmentsAroundDoors(wall.length, DoorsOf(room.doors, side));
      if !cut.Segments? {
        return CutFailed(boxes, cut);
      }
      ghost var before := boxes;
      for i := 0 to |cut.segments|
        invariant boxes == before + PieceBoxes(wall, room.thickness, cut.segments[..i])
      {
        assert cut.segments[..i + 1][..i] == cut.segments[..i];
        boxes := boxes + [PieceBox(wall, room.thickness, cut.segments[i])];
      }
      assert cut.segments[..|cut.segments|] == cut.segments;
    }
    build := Built(boxes);
  }

  datatype Panel = Placed(box: Box) | UnknownSide(side: int)

  function BuildDoor(room: RoomPlan, d: RoomDoor): Panel {
    var hw, hl := room.width / 2.0, room.length / 2.0;
    if d.side == 0 then Placed(Box(d.centreOffset, hl + room.thickness / 2.0, d.width, room.thickness))
    else if d.side == 1 then Placed(Box(hw + room.thickness / 2.0, d.centreOffset, room.thickness, d.width))
    else if d.side == 2 then Placed(Box(d.centreOffset, -hl - room.thickness / 2.0, d.width, room.thickness))
    else if d.side == 3 then Placed(Box(-hw - room.thickness / 2.0, d.centreOffset, room.thickness, d.width))
    else UnknownSide(d.side)
  }

  /** There is a panel for a door in one of the four walls, and an error for any other. */
  lemma PanelKnownIff(room: RoomPlan, d: RoomDoor)
    ensures BuildDoor(room, d) == UnknownSide(d.side) <==> d.side < 0 || d.side > 3
  {
  }

  /** A wall's doors are those of its side, each once, in the order in which they are listed. */
  lemma {:induction false} DoorsOfNext(doors: seq<RoomDoor>, d: RoomDoor, side: int)
    ensures DoorsOf(doors + [d], side) ==
            DoorsOf(doors, side) + if d.side == side then [Door(d.centreOffset, d.width)] else []
    decreases |doors|
  {
    hide DoorsOf;
    DoorsOfFirst(doors + [d], side);
    if doors == [] {
      NoDoors(side);
      assert (doors + [d])[1..] == [];
    } else {
      DoorsOfFirst(doors, side);
      DoorsOfNext(doors[1..], d, side);
      assert (doors + [d])[1..] == doors[1..] + [d];
    }
  }

  lemma NoDoors(side: int)
    ensures DoorsOf([], side) == []
  {
  }

  lemma DoorsOfFirst(doors: seq<RoomDoor>, side: int)
    requires doors != []
    ensures DoorsOf(doors, side) ==
            (if doors[0].side == side then [Door(doors[0].centreOffset, doors[0].width)] else [])
            + DoorsOf(doors[1..], side)
  {
  }

  /** The walls are built exactly if each of them can be cut; otherwise the fault of the first one that cannot is
      reported. */
  lemma {:induction false} BuiltIff(room: RoomPlan, side: nat, built: seq<Box>)
    requires side <= 4
    ensures BuildFrom(room, side, built).Built? <==> forall k :: side <= k < 4 ==> CutOf(room, k).Segments?
    ensures BuildFrom(room, side, built).CutFailed? ==>
              exists k :: side <= k < 4 && BuildFrom(room, side, built).cut == CutOf(room, k)
                          && !CutOf(room, k).Segments? && forall i :: side <= i < k ==> CutOf(room, i).Segments?
    decreases 4 - side
  {
    hide CutOf, WallOf, PieceBoxes;
    if side < 4 && CutOf(room, side).Segments? {
      BuiltIff(room, side + 1, built + PieceBoxes(WallOf(room, side), room.thickness, CutOf(room, side).segments));
    }
  }

  // ----- Along one wall

  ghost predicate Along(segments: seq<Segment>, doors: seq<Door>, u: real) {
    (exists s :: s in segments && s.Start() <= u <= s.End()) || OpenAt(doors, u)
  }

  lemma PieceInWall(wallLength: real, doors: seq<Door>, k: nat)
    requires CutWall(wallLength, doors).Segments? && Widths(doors) && k < |CutWall(wallLength, doors).segments|
    ensures -(wallLength / 2.0) <= CutWall(wallLength, doors).segments[k].Start()
    ensures CutWall(wallLength, doors).segments[k].End() <= wallLength / 2.0
  {
    hide CutFrom, Sorted;
    var half := wallLength / 2.0;
    var sorted := Sorted(doors);
    SameDoors(doors, sorted, 0.0);
    CutSucceedsIff(half, -half, sorted);
    PieceBetweenDoors(half, -half, sorted, k);
    DoorsInside(half, sorted);
    if k > 0 {
      assert sorted[k - 1] in sorted;
    }
    if k < |sorted| {
      assert sorted[k] in sorted;
    }
  }

  lemma DoorsInside(half: real, doors: seq<Door>)
    requires Chain(half, -half, doors) && Widths(doors)
    ensures forall d :: d in doors ==> -half <= d.Left() <= d.Right() <= half
  {
  }

  /** At the two ends of the wall there is a piece or a door as well. */
  lemma EndsCovered(wallLength: real, doors: seq<Door>)
    requires CutWall(wallLength, doors).Segments? && Widths(doors) && wallLength > 0.0
    ensures Along(CutWall(wallLength, doors).segments, doors, -(wallLength / 2.0))
    ensures Along(CutWall(wallLength, doors).segments, doors, wallLength / 2.0)
  {
    hide CutFrom, Sorted;
    var half := wallLength / 2.0;
    var sorted := Sorted(doors);
    var segments := CutWall(wallLength, doors).segments;
    var n := |sorted|;
    SameDoors(doors, sorted, half);
    CutSucceedsIff(half, -half, sorted);
    PieceCount(half, -half, sorted);
    PieceBetweenDoors(half, -half, sorted, 0);
    assert segments[0] in segments && segments[0].Start() <= -half <= segments[0].End();
    if |segments| > n {
      PieceBetweenDoors(half, -half, sorted, n);
      assert segments[n] in segments && segments[n].Start() <= half <= segments[n].End();
    } else {
      DoorsInside(half, sorted);
      assert sorted[n - 1] in sorted && sorted[n - 1].Covers(half);
    }
  }

  lemma AlongWall(wallLength: real, doors: seq<Door>, u: real)
    requires CutWall(wallLength, doors).Segments? && Widths(doors) && wallLength > 0.0
    ensures Along(CutWall(wallLength, doors).segments, doors, u) <==> -(wallLength / 2.0) <= u <= wallLength / 2.0
  {
    hide CutWall;
    var half := wallLength / 2.0;
    var segments := CutWall(wallLength, doors).segments;
    EndsCovered(wallLength, doors);
    if -half < u < half {
      WallTiled(wallLength, doors, u);
    }
    forall s | s in segments && s.Start() <= u <= s.End()
      ensures -half <= u <= half
    {
      var k :| 0 <= k < |segments| && segments[k] == s;
      PieceInWall(wallLength, doors, k);
    }
    CutWallSucceedsIff(wallLength, doors);
  }

  // ----- Boxes of one wall

  ghost predicate Cover(boxes: seq<Box>, x: real, y: real) {
    exists b :: b in boxes && b.Covers(x, y)
  }

  function PanelBoxes(room: RoomPlan, doors: seq<RoomDoor>): seq<Box> {
    if doors == [] then []
    else
      var first := if BuildDoor(room, doors[0]).Placed? then [BuildDoor(room, doors[0]).box] else [];
      first + PanelBoxes(room, doors[1..])
  }

  /** The rectangle a wall is meant to fill. */
  function Slab(room: RoomPlan, side: nat): Box
    requires side < 4
  {
    var wall := WallOf(room, side);
    if wall.alongX then Box(wall.cx, wall.cy, wall.length, room.thickness)
    else Box(wall.cx, wall.cy, room.thickness, wall.length)
  }

  function AlongCoordinate(wall: Wall, x: real, y: real): real {
    if wall.alongX then x - wall.cx else y - wall.cy
  }

  predicate WithinThickness(wall: Wall, thickness: real, x: real, y: real) {
    -(thickness / 2.0) <= (if wall.alongX then y - wall.cy else x - wall.cx) <= thickness / 2.0
  }

  /** A door panel fills its opening: along the wall it covers exactly the door's interval. */
  lemma PanelFillsOpening(room: RoomPlan, d: RoomDoor, x: real, y: real)
    requires 0 <= d.side < 4
    ensures BuildDoor(room, d).Placed?
    ensures BuildDoor(room, d).box.Covers(x, y) <==>
            && Door(d.centreOffset, d.width).Covers(AlongCoordinate(WallOf(room, d.side), x, y))
            && WithinThickness(WallOf(room, d.side), room.thickness, x, y)
  {
  }

  lemma {:induction false} PieceBoxesMembers(wall: Wall, thickness: real, segments: seq<Segment>, b: Box)
    ensures b in PieceBoxes(wall, thickness, segments) <==>
            exists s :: s in segments && b == PieceBox(wall, thickness, s)
    decreases |segments|
  {
    if segments != [] {
      var n := |segments| - 1;
      PieceBoxesMembers(wall, thickness, segments[..n], b);
      assert segments == segments[..n] + [segments[n]];
    }
  }

  lemma {:induction false} PanelBoxesMembers(room: RoomPlan, doors: seq<RoomDoor>, b: Box)
    ensures b in PanelBoxes(room, doors) <==> exists d :: d in doors && BuildDoor(room, d) == Placed(b)
    decreases |doors|
  {
    if doors != [] {
      PanelBoxesMembers(room, doors[1..], b);
      assert doors == [doors[0]] + doors[1..];
    }
  }

  lemma {:induction false} DoorsOfMembers(doors: seq<RoomDoor>, side: int, d: Door)
    ensures d in DoorsOf(doors, side) <==>
            exists r :: r in doors && r.side == side && d == Door(r.centreOffset, r.width)
    decreases |doors|
  {
    if doors != [] {
      DoorsOfMembers(doors[1..], side, d);
      assert doors == [doors[0]] + doors[1..];
    }
  }

  ghost predicate RoomWidths(doors: seq<RoomDoor>) {
    forall d :: d in doors ==> d.width >= 0.0
  }

  lemma WidthsOfWall(doors: seq<RoomDoor>, side: int)
    requires RoomWidths(doors)
    ensures Widths(DoorsOf(doors, side))
  {
    forall d | d in DoorsOf(doors, side)
      ensures d.width >= 0.0
    {
      DoorsOfMembers(doors, side, d);
    }
  }

  ghost predicate PanelOn(room: RoomPlan, side: nat, x: real, y: real) {
    exists d :: d in room.doors && d.side == side && BuildDoor(room, d).Placed? && BuildDoor(room, d).box.Covers(x, y)
  }

  /** The pieces and the panels of one wall fill its slab, and nothing else. */
  lemma WallSolid(room: RoomPlan, side: nat, x: real, y: real)
    requires side < 4 && CutOf(room, side).Segments? && RoomWidths(room.doors) && WallOf(room, side).length > 0.0
    ensures Cover(PieceBoxes(WallOf(room, side), room.thickness, CutOf(room, side).segments), x, y)
            || PanelOn(room, side, x, y)
            <==> Slab(room, side).Covers(x, y)
  {
    hide CutWall, WallLayout;
    var wall := WallOf(room, side);
    var doors := DoorsOf(room.doors, side);
    var segments := CutOf(room, side).segments;
    var u := AlongCoordinate(wall, x, y);
    WidthsOfWall(room.doors, side);
    AlongWall(wall.length, doors, u);
    PiecesAlong(wall, room.thickness, segments, x, y);
    PanelsAlong(room, side, x, y);
  }

  lemma PiecesAlong(wall: Wall, thickness: real, segments: seq<Segment>, x: real, y: real)
    ensures Cover(PieceBoxes(wall, thickness, segments), x, y) <==>
            && (exists s :: s in segments && s.Start() <= AlongCoordinate(wall, x, y) <= s.End())
            && WithinThickness(wall, thickness, x, y)
  {
    hide PieceBoxes;
    var boxes := PieceBoxes(wall, thickness, segments);
    forall b | b in boxes && b.Covers(x, y)
      ensures exists s :: s in segments && b == PieceBox(wall, thickness, s)
    {
      PieceBoxesMembers(wall, thickness, segments, b);
    }
    forall s | s in segments
      ensures PieceBox(wall, thickness, s) in boxes
    {
      PieceBoxesMembers(wall, thickness, segments, PieceBox(wall, thickness, s));
    }
  }

  lemma PanelsAlong(room: RoomPlan, side: nat, x: real, y: real)
    requires side < 4
    ensures PanelOn(room, side, x, y) <==>
            && OpenAt(DoorsOf(room.doors, side), AlongCoordinate(WallOf(room, side), x, y))
            && WithinThickness(WallOf(room, side), room.thickness, x, y)
  {
    hide WallLayout, BuildDoor, DoorsOf;
    var u := AlongCoordinate(WallOf(room, side), x, y);
    forall d | d in room.doors && d.side == side
      ensures BuildDoor(room, d).Placed?
      ensures BuildDoor(room, d).box.Covers(x, y) <==>
              Door(d.centreOffset, d.width).Covers(u) && WithinThickness(WallOf(room, side), room.thickness, x, y)
      ensures Door(d.centreOffset, d.width) in DoorsOf(room.doors, side)
    {
      PanelFillsOpening(room, d, x, y);
      DoorsOfMembers(room.doors, side, Door(d.centreOffset, d.width));
    }
    forall e | e in DoorsOf(room.doors, side)
      ensures exists r :: r in room.doors && r.side == side && e == Door(r.centreOffset, r.width)
    {
      DoorsOfMembers(room.doors, side, e);
    }
  }

  // ----- The room

  predicate InRing(room: RoomPlan, x: real, y: real) {
    var hw, hl, t := room.width / 2.0, room.length / 2.0, room.thickness;
    && -hw - t <= x <= hw + t && -hl - t <= y <= hl + t
    && !(-hw < x < hw && -hl < y < hl)
  }

  /** The four slabs are the ring around the room, corners included. */
  lemma SlabsAreRing(room: RoomPlan, x: real, y: real)
    requires room.width > 0.0 && room.length > 0.0 && room.thickness > 0.0
    ensures (exists side: nat :: side < 4 && Slab(room, side).Covers(x, y)) <==> InRing(room, x, y)
  {
    if InRing(room, x, y) {
      assert Slab(room, 0).Covers(x, y) || Slab(room, 1).Covers(x, y) || Slab(room, 2).Covers(x, y)
          || Slab(room, 3).Covers(x, y);
    }
  }

  lemma CoverUnion(a: seq<Box>, b: seq<Box>, x: real, y: real)
    ensures Cover(a + b, x, y) <==> Cover(a, x, y) || Cover(b, x, y)
  {
  }

  ghost predicate WallCovers(room: RoomPlan, side: nat, x: real, y: real)
    requires side < 4
  {
    && CutOf(room, side).Segments?
    && Cover(PieceBoxes(WallOf(room, side), room.thickness, CutOf(room, side).segments), x, y)
  }

  lemma {:induction false} BuiltCovers(room: RoomPlan, side: nat, built: seq<Box>, x: real, y: real)
    requires side <= 4 && BuildFrom(room, side, built).Built?
    ensures forall k :: side <= k < 4 ==> CutOf(room, k).Segments?
    ensures Cover(BuildFrom(room, side, built).boxes, x, y) <==>
            Cover(built, x, y) || exists k :: side <= k < 4 && WallCovers(room, k, x, y)
    decreases 4 - side
  {
    hide CutOf, WallOf, PieceBoxes;
    if side < 4 {
      var pieces := PieceBoxes(WallOf(room, side), room.thickness, CutOf(room, side).segments);
      BuiltCovers(room, side + 1, built + pieces, x, y);
      CoverUnion(built, pieces, x, y);
      assert WallCovers(room, side, x, y) <==> Cover(pieces, x, y);
      assert forall k :: side <= k < 4 && WallCovers(room, k, x, y) ==> k == side || side + 1 <= k;
    }
  }

  /** The finished room is closed: walls and doors cover the ring around it, and nothing else. */
  lemma RoomClosed(room: RoomPlan, x: real, y: real)
    requires room.width > 0.0 && room.length > 0.0 && room.thickness > 0.0 && RoomWidths(room.doors)
    requires BuildFrom(room, 0, []).Built?
    ensures Cover(BuildFrom(room, 0, []).boxes + PanelBoxes(room, room.doors), x, y) <==> InRing(room, x, y)
  {
    hide BuildFrom, CutOf, PieceBoxes, PanelBoxes, InRing, Slab, BuildDoor, WallLayout;
    var boxes, panels := BuildFrom(room, 0, []).boxes, PanelBoxes(room, room.doors);
    CoverUnion(boxes, panels, x, y);
    BuiltCovers(room, 0, [], x, y);
    PanelsBySide(room, x, y);
    SlabsAreRing(room, x, y);
    forall side: nat | side < 4
      ensures WallCovers(room, side, x, y) || PanelOn(room, side, x, y) <==> Slab(room, side).Covers(x, y)
    {
      WallLengthPositive(room, side);
      WallSolid(room, side, x, y);
    }
    assert !Cover([], x, y);
    if Cover(boxes, x, y) {
      var k :| 0 <= k < 4 && WallCovers(room, k, x, y);
      assert Slab(room, k).Covers(x, y);
    }
    if Cover(panels, x, y) {
      var side: nat :| side < 4 && PanelOn(room, side, x, y);
      assert Slab(room, side).Covers(x, y);
    }
    if InRing(room, x, y) {
      var side: nat :| side < 4 && Slab(room, side).Covers(x, y);
      assert WallCovers(room, side, x, y) || PanelOn(room, side, x, y);
    }
  }

  lemma WallLengthPositive(room: RoomPlan, side: nat)
    requires side < 4 && room.width > 0.0 && room.length > 0.0 && room.thickness > 0.0
    ensures WallOf(room, side).length > 0.0
  {
  }

  lemma PanelsBySide(room: RoomPlan, x: real, y: real)
    ensures Cover(PanelBoxes(room, room.doors), x, y) <==> exists side: nat :: side < 4 && PanelOn(room, side, x, y)
  {
    hide PanelBoxes;
    var panels := PanelBoxes(room, room.doors);
    forall b | b in panels
      ensures exists d :: d in room.doors && BuildDoor(room, d) == Placed(b)
    {
      PanelBoxesMembers(room, room.doors, b);
    }
    if Cover(panels, x, y) {
      var b :| b in panels && b.Covers(x, y);
      var d :| d in room.doors && BuildDoor(room, d) == Placed(b);
      assert PanelOn(room, d.side, x, y);
    }
    forall d | d in room.doors && BuildDoor(room, d).Placed?
      ensures BuildDoor(room, d).box in panels
    {
      PanelBoxesMembers(room, room.doors, BuildDoor(room, d).box);
    }
  }
}
