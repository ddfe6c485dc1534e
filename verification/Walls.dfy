/** Cutting door openings out of a wall: when it succeeds, and that solid pieces and doors then tile
    the wall exactly. */
module Walls {

  /** A door along a wall, relative to the wall's centre. */
  datatype Door = Door(centre: real, width: real) {
    function Left(): real {
      centre - width / 2.0
    }

    function Right(): real {
      centre + width / 2.0
    }

    ghost predicate Covers(x: real) {
      Left() <= x <= Right()
    }
  }

  /** A solid piece of wall, as it is handed to the scene builder. */
  datatype Segment = Segment(length: real, centre: real) {
    function Start(): real {
      centre - length / 2.0
    }

    function End(): real {
      centre + length / 2.0
    }
  }

  datatype Cut =
    | Segments(segments: seq<Segment>)
    | ExceedsWall(door: Door)
    | OverlapsPrevious(door: Door)
  {
    function Prepend(front: seq<Segment>): Cut {
      if Segments? then Segments(front + segments) else this
    }
  }

  // ----- Sorting by left edge

  ghost predicate Ordered(doors: seq<Door>) {
    forall i, j :: 0 <= i < j < |doors| ==> doors[i].Left() <= doors[j].Left()
  }

  /** Stable insertion: after all doors whose left edge is not further right. */
  function Insert(doors: seq<Door>, d: Door): (r: seq<Door>)
    ensures multiset(r) == multiset(doors) + multiset{d}
    decreases |doors|
  {
    if doors == [] then [d] else
      var n := |doors| - 1;
      assert doors == doors[..n] + [doors[n]];
      if doors[n].Left() <= d.Left() then doors + [d] else Insert(doors[..n], d) + [doors[n]]
  }

  function Sorted(doors: seq<Door>): (r: seq<Door>)
    ensures multiset(r) == multiset(doors)
    decreases |doors|
  {
    if doors == [] then [] else
      var n := |doors| - 1;
      assert doors == doors[..n] + [doors[n]];
      Insert(Sorted(doors[..n]), doors[n])
  }

  lemma InsertMember(doors: seq<Door>, d: Door, e: Door)
    requires e in Insert(doors, d)
    ensures e in doors || e == d
  {
    hide Insert;
    assert e in multiset(Insert(doors, d));
  }

  lemma {:induction false} InsertOrdered(doors: seq<Door>, d: Door)
    requires Ordered(doors)
    ensures Ordered(Insert(doors, d))
    decreases |doors|
  {
    if doors == [] {
    } else if doors[|doors| - 1].Left() <= d.Left() {
      LastIsRightmost(doors);
      AppendOrdered(doors, d);
    } else {
      var n := |doors| - 1;
      var last := doors[n];
      LastIsRightmost(doors);
      InsertOrdered(doors[..n], d);
      assert Insert(doors, d) == Insert(doors[..n], d) + [last];
      hide Ordered, Insert;
      forall e | e in Insert(doors[..n], d)
        ensures e.Left() <= last.Left()
      {
        InsertMember(doors[..n], d, e);
      }
      AppendOrdered(Insert(doors[..n], d), last);
    }
  }

  lemma LastIsRightmost(doors: seq<Door>)
    requires Ordered(doors) && doors != []
    ensures forall e :: e in doors ==> e.Left() <= doors[|doors| - 1].Left()
  {
  }

  lemma AppendOrdered(doors: seq<Door>, d: Door)
    requires Ordered(doors) && forall e :: e in doors ==> e.Left() <= d.Left()
    ensures Ordered(doors + [d])
  {
  }

  lemma {:induction false} SortedOrdered(doors: seq<Door>)
    ensures Ordered(Sorted(doors))
    decreases |doors|
  {
    if doors != [] {
      SortedOrdered(doors[..|doors| - 1]);
      InsertOrdered(Sorted(doors[..|doors| - 1]), doors[|doors| - 1]);
    }
  }

  /** The doors with a given left edge, in the order in which they are listed. */
  function AtEdge(doors: seq<Door>, left: real): seq<Door>
    decreases |doors|
  {
    if doors == [] then []
    else
      var n := |doors| - 1;
      AtEdge(doors[..n], left) + if doors[n].Left() == left then [doors[n]] else []
  }

  lemma AtEdgeNext(doors: seq<Door>, d: Door, left: real)
    ensures AtEdge(doors + [d], left) == AtEdge(doors, left) + if d.Left() == left then [d] else []
  {
    assert (doors + [d])[..|doors|] == doors;
  }

  lemma {:induction false} InsertStable(doors: seq<Door>, d: Door, left: real)
    ensures AtEdge(Insert(doors, d), left) == AtEdge(doors + [d], left)
    decreases |doors|
  {
    hide AtEdge;
    if doors == [] {
      assert doors + [d] == [d];
    } else {
      var n := |doors| - 1;
      var last := doors[n];
      assert doors == doors[..n] + [last];
      if last.Left() > d.Left() {
        InsertStable(doors[..n], d, left);
        AtEdgeNext(Insert(doors[..n], d), last, left);
        AtEdgeNext(doors[..n], d, left);
        AtEdgeNext(doors[..n], last, left);
        AtEdgeNext(doors, d, left);
        assert AtEdge(doors[..n], left) + [] == AtEdge(doors[..n], left);
      }
    }
  }

  /** Sorting is stable: doors with the same left edge stay in the order in which they were listed. */
  lemma {:induction false} SortedStable(doors: seq<Door>, left: real)
    ensures AtEdge(Sorted(doors), left) == AtEdge(doors, left)
    decreases |doors|
  {
    hide AtEdge, Insert;
    if doors != [] {
      var n := |doors| - 1;
      assert doors == doors[..n] + [doors[n]];
      SortedStable(doors[..n], left);
      InsertStable(Sorted(doors[..n]), doors[n], left);
      AtEdgeNext(Sorted(doors[..n]), doors[n], left);
      AtEdgeNext(doors[..n], doors[n], left);
    }
  }

  // ----- Cutting

  /** The pieces from `cursor` to the right end of a wall of half length `half`. */
  function CutFrom(half: real, cursor: real, doors: seq<Door>): Cut
    decreases |doors|
  {
    if doors == [] then
      Segments(if cursor < half then [Segment(half - cursor, (cursor + half) / 2.0)] else [])
    else
      var d := doors[0];
      if d.Left() < -half || d.Right() > half then ExceedsWall(d)
      else if d.Left() <= cursor then OverlapsPrevious(d)
      else CutFrom(half, d.Right(), doors[1..]).Prepend([Segment(d.Left() - cursor, (cursor + d.Left()) / 2.0)])
  }

  function CutWall(wallLength: real, doors: seq<Door>): Cut {
    CutFrom(wallLength / 2.0, -(wallLength / 2.0), Sorted(doors))
  }

  method SegmentsAroundDoors(wallLength: real, doors: seq<Door>) returns (cut: Cut)
    ensures cut == CutWall(wallLength, doors)
  {
    hide Sorted, CutFrom;
    var half := wallLength / 2.0;
    var sortedDoors := Sorted(doors);
    var segments: seq<Segment> := [];
    var cursor := -half;
    for i := 0 to |sortedDoors|
      invariant CutWall(wallLength, doors) == CutFrom(half, cursor, sortedDoors[i..]).Prepend(segments)
    {
      CutNext(half, cursor, sortedDoors, i);
      var d := sortedDoors[i];
      var left := d.centre - d.width / 2.0;
      var right := d.centre + d.width / 2.0;
      if left < -half || right > half {
        return ExceedsWall(d);
      }
      if left <= cursor {
        return OverlapsPrevious(d);
      }
      var piece := Segment(left - cursor, (cursor + left) / 2.0);
      PrependTwice(segments, [piece], CutFrom(half, right, sortedDoors[i + 1..]));
      segments := segments + [piece];
      cursor := right;
    }
    CutEnd(half, cursor, sortedDoors);
    if cursor < half {
      segments := segments + [Segment(half - cursor, (cursor + half) / 2.0)];
    }
    cut := Segments(segments);
  }

  lemma CutNext(half: real, cursor: real, doors: seq<Door>, i: nat)
    requires i < |doors|
    ensures var d := doors[i];
            CutFrom(half, cursor, doors[i..]) ==
            if d.Left() < -half || d.Right() > half then ExceedsWall(d)
            else if d.Left() <= cursor then OverlapsPrevious(d)
            else
              var piece := Segment(d.Left() - cursor, (cursor + d.Left()) / 2.0);
              CutFrom(half, d.Right(), doors[i + 1..]).Prepend([piece])
  {
    assert doors[i..][1..] == doors[i + 1..];
  }

  lemma CutEnd(half: real, cursor: real, doors: seq<Door>)
    ensures CutFrom(half, cursor, doors[|doors|..]) ==
            Segments(if cursor < half then [Segment(half - cursor, (cursor + half) / 2.0)] else [])
  {
  }

  lemma PrependTwice(front: seq<Segment>, middle: seq<Segment>, cut: Cut)
    ensures cut.Prepend(middle).Prepend(front) == cut.Prepend(front + middle)
  {
    if cut.Segments? {
      assert front + (middle + cut.segments) == front + middle + cut.segments;
    }
  }

  // ----- When cutting succeeds

  /** Two openings with solid wall between them. */
  ghost predicate Apart(d: Door, e: Door) {
    d.Right() < e.Left() || e.Right() < d.Left()
  }

  ghost predicate Fits(half: real, doors: seq<Door>) {
    && (forall d :: d in doors ==> -half < d.Left() && d.Right() <= half)
    && (forall i, j :: 0 <= i < j < |doors| ==> Apart(doors[i], doors[j]))
  }

  ghost predicate Widths(doors: seq<Door>) {
    forall d :: d in doors ==> d.width >= 0.0
  }

  /** Where the solid wall in front of the `i`th door starts. */
  function SolidFrom(cursor: real, doors: seq<Door>, i: nat): real
    requires i <= |doors|
  {
    if i == 0 then cursor else doors[i - 1].Right()
  }

  /** For doors in order: each lies in the wall and starts beyond the end of the one before. */
  ghost predicate Chain(half: real, cursor: real, doors: seq<Door>) {
    && (forall d :: d in doors ==> -half <= d.Left() && d.Right() <= half)
    && (forall i {:trigger SolidFrom(cursor, doors, i)} :: 0 <= i < |doors| ==>
          SolidFrom(cursor, doors, i) < doors[i].Left())
  }

  lemma {:induction false} CutSucceedsIff(half: real, cursor: real, doors: seq<Door>)
    ensures CutFrom(half, cursor, doors).Segments? <==> Chain(half, cursor, doors)
    decreases |doors|
  {
    if doors != [] {
      var d := doors[0];
      CutSucceedsIff(half, d.Right(), doors[1..]);
      assert doors == [d] + doors[1..];
      if Chain(half, d.Right(), doors[1..]) {
        forall i | 0 < i < |doors|
          ensures SolidFrom(cursor, doors, i) < doors[i].Left()
        {
          assert SolidFrom(cursor, doors, i) == SolidFrom(d.Right(), doors[1..], i - 1);
        }
      }
      if Chain(half, cursor, doors) {
        assert SolidFrom(cursor, doors, 0) < d.Left();
        forall i | 0 <= i < |doors[1..]|
          ensures SolidFrom(d.Right(), doors[1..], i) < doors[1..][i].Left()
        {
          assert SolidFrom(cursor, doors, i + 1) == SolidFrom(d.Right(), doors[1..], i);
        }
      }
    }
  }

  /** The `i`th of the doors in order can be cut out: it lies in the wall, with solid wall in front of it. */
  predicate CanCut(half: real, cursor: real, doors: seq<Door>, i: nat)
    requires i < |doors|
  {
    -half <= doors[i].Left() && doors[i].Right() <= half && SolidFrom(cursor, doors, i) < doors[i].Left()
  }

  /** The first door that cannot be cut out is reported: that it exceeds the wall, or else that it overlaps. */
  lemma {:induction false} FirstFaultReported(half: real, cursor: real, doors: seq<Door>, k: nat)
    requires k < |doors| && !CanCut(half, cursor, doors, k)
    requires forall i: nat :: i < k ==> CanCut(half, cursor, doors, i)
    ensures CutFrom(half, cursor, doors) ==
            if -half <= doors[k].Left() && doors[k].Right() <= half then OverlapsPrevious(doors[k])
            else ExceedsWall(doors[k])
    decreases k
  {
    if k > 0 {
      var d := doors[0];
      assert CanCut(half, cursor, doors, 0);
      forall i: nat | i < k
        ensures CanCut(half, d.Right(), doors[1..], i) <==> CanCut(half, cursor, doors, i + 1)
      {
        assert SolidFrom(d.Right(), doors[1..], i) == SolidFrom(cursor, doors, i + 1);
      }
      assert CanCut(half, d.Right(), doors[1..], k - 1) <==> CanCut(half, cursor, doors, k);
      FirstFaultReported(half, d.Right(), doors[1..], k - 1);
    }
  }

  lemma ChainOrders(half: real, cursor: real, doors: seq<Door>, i: nat, j: nat)
    requires Chain(half, cursor, doors) && Ordered(doors) && i < j < |doors|
    ensures doors[i].Right() < doors[j].Left()
  {
    assert SolidFrom(cursor, doors, i + 1) < doors[i + 1].Left();
    if i + 1 < j {
      assert doors[i + 1].Left() <= doors[j].Left();
    }
  }

  lemma ChainIffFits(half: real, doors: seq<Door>)
    requires Ordered(doors) && Widths(doors)
    ensures Chain(half, -half, doors) <==> Fits(half, doors)
  {
    if Chain(half, -half, doors) {
      forall i | 0 <= i < |doors|
        ensures -half < doors[i].Left()
      {
        assert SolidFrom(-half, doors, 0) < doors[0].Left();
        if i > 0 {
          assert doors[0].Left() <= doors[i].Left();
        }
      }
      forall i, j | 0 <= i < j < |doors|
        ensures Apart(doors[i], doors[j])
      {
        ChainOrders(half, -half, doors, i, j);
      }
    }
    if Fits(half, doors) {
      forall i | 0 < i < |doors|
        ensures SolidFrom(-half, doors, i) < doors[i].Left()
      {
        assert Apart(doors[i - 1], doors[i]);
      }
    }
  }

  // "Fits" does not depend on the order of the doors

  ghost predicate FitsBag(half: real, bag: multiset<Door>) {
    && (forall d :: d in bag ==> -half < d.Left() && d.Right() <= half)
    && (forall d :: d in bag && bag[d] > 1 ==> Apart(d, d))
    && (forall d, e :: d in bag && e in bag && d != e ==> Apart(d, e))
  }

  lemma {:induction false} CountTwice(doors: seq<Door>, d: Door)
    requires multiset(doors)[d] > 1
    ensures exists i, j :: 0 <= i < j < |doors| && doors[i] == doors[j] == d
    decreases |doors|
  {
    var n := |doors| - 1;
    assert doors == doors[..n] + [doors[n]];
    if doors[n] == d {
      assert d in doors[..n];
      var i :| 0 <= i < n && doors[..n][i] == d;
      assert doors[i] == doors[n] == d;
    } else {
      CountTwice(doors[..n], d);
      var i, j :| 0 <= i < j < n && doors[..n][i] == doors[..n][j] == d;
      assert doors[i] == doors[j] == d;
    }
  }

  lemma {:induction false} PairCounts(doors: seq<Door>, i: nat, j: nat)
    requires i < j < |doors| && doors[i] == doors[j]
    ensures multiset(doors)[doors[i]] > 1
  {
    assert doors == doors[..j] + doors[j..];
    assert doors[i] == doors[..j][i];
    assert doors[i] == doors[j..][0];
  }

  lemma FitsIffFitsBag(half: real, doors: seq<Door>)
    ensures Fits(half, doors) <==> FitsBag(half, multiset(doors))
  {
    var bag := multiset(doors);
    if Fits(half, doors) {
      forall d | d in bag && bag[d] > 1
        ensures Apart(d, d)
      {
        CountTwice(doors, d);
      }
      forall d, e | d in bag && e in bag && d != e
        ensures Apart(d, e)
      {
        var i :| 0 <= i < |doors| && doors[i] == d;
        var j :| 0 <= j < |doors| && doors[j] == e;
        assert i < j || j < i;
      }
    }
    if FitsBag(half, bag) {
      forall i, j | 0 <= i < j < |doors|
        ensures Apart(doors[i], doors[j])
      {
        if doors[i] == doors[j] {
          PairCounts(doors, i, j);
        }
      }
    }
  }

  /** Cutting succeeds exactly when every door lies inside the wall clear of its left end and any two
      doors have solid wall between them. */
  lemma CutWallSucceedsIff(wallLength: real, doors: seq<Door>)
    requires Widths(doors)
    ensures CutWall(wallLength, doors).Segments? <==> Fits(wallLength / 2.0, doors)
  {
    hide CutFrom, Sorted, Fits, FitsBag, Chain, Ordered;
    var half := wallLength / 2.0;
    var sorted := Sorted(doors);
    SortedOrdered(doors);
    assert Widths(sorted) by {
      forall d | d in sorted
        ensures d.width >= 0.0
      {
        assert d in multiset(doors);
      }
    }
    CutSucceedsIff(half, -half, sorted);
    ChainIffFits(half, sorted);
    FitsIffFitsBag(half, sorted);
    FitsIffFitsBag(half, doors);
  }

  // ----- What a successful cut is

  lemma {:induction false} PieceCount(half: real, cursor: real, doors: seq<Door>)
    requires CutFrom(half, cursor, doors).Segments?
    ensures |CutFrom(half, cursor, doors).segments| ==
            |doors| + (if SolidFrom(cursor, doors, |doors|) < half then 1 else 0)
    decreases |doors|
  {
    if doors != [] {
      PieceCount(half, doors[0].Right(), doors[1..]);
      assert SolidFrom(cursor, doors, |doors|) == SolidFrom(doors[0].Right(), doors[1..], |doors| - 1);
    }
  }

  /** Pieces and openings alternate: each piece starts where the previous door ends (or at the left end
      of the wall) and ends where the next door starts (or at the right end). */
  lemma {:induction false} PieceBetweenDoors(half: real, cursor: real, doors: seq<Door>, k: nat)
    requires CutFrom(half, cursor, doors).Segments? && k < |CutFrom(half, cursor, doors).segments|
    ensures k <= |doors|
    ensures var piece := CutFrom(half, cursor, doors).segments[k];
            && piece.length > 0.0
            && piece.Start() == SolidFrom(cursor, doors, k)
            && piece.End() == if k < |doors| then doors[k].Left() else half
    decreases k
  {
    if k > 0 && doors != [] {
      var d := doors[0];
      PieceBetweenDoors(half, d.Right(), doors[1..], k - 1);
      assert CutFrom(half, cursor, doors).segments[k] == CutFrom(half, d.Right(), doors[1..]).segments[k - 1];
      assert SolidFrom(cursor, doors, k) == SolidFrom(d.Right(), doors[1..], k - 1);
    }
  }

  function TotalLength(segments: seq<Segment>): real {
    if segments == [] then 0.0 else segments[0].length + TotalLength(segments[1..])
  }

  function TotalWidth(doors: seq<Door>): real {
    if doors == [] then 0.0 else doors[0].width + TotalWidth(doors[1..])
  }

  lemma {:induction false} LengthsAddUp(half: real, cursor: real, doors: seq<Door>)
    requires CutFrom(half, cursor, doors).Segments? && cursor <= half
    ensures TotalLength(CutFrom(half, cursor, doors).segments) + TotalWidth(doors) == half - cursor
    decreases |doors|
  {
    if doors != [] {
      var d := doors[0];
      LengthsAddUp(half, d.Right(), doors[1..]);
      assert CutFrom(half, cursor, doors).segments[1..] == CutFrom(half, d.Right(), doors[1..]).segments;
    } else {
      assert TotalLength([]) == 0.0;
    }
  }

  lemma BagWithoutFirst(a: seq<Door>)
    requires a != []
    ensures a[0] in multiset(a) && multiset(a[1..]) == multiset(a) - multiset{a[0]}
  {
    assert a == [a[0]] + a[1..];
  }

  lemma BagWithout(b: seq<Door>, k: nat)
    requires k < |b|
    ensures multiset(b[..k] + b[k + 1..]) == multiset(b) - multiset{b[k]}
  {
    assert b == b[..k] + [b[k]] + b[k + 1..];
  }

  lemma {:induction false} TotalWidthOfBag(a: seq<Door>, b: seq<Door>)
    requires multiset(a) == multiset(b)
    ensures TotalWidth(a) == TotalWidth(b)
    decreases |a|
  {
    if a == [] {
      EmptyBag(b);
    } else {
      var front, back := SameBagWithout(a, b);
      TotalWidthOfBag(a[1..], front + back);
      TotalWidthMiddle(front, a[0], back);
    }
  }

  lemma EmptyBag(b: seq<Door>)
    requires multiset(b) == multiset{}
    ensures b == []
  {
    assert |multiset(b)| == |b|;
  }

  /** The first door is somewhere in any other listing of the same doors, and the others are the same. */
  lemma SameBagWithout(a: seq<Door>, b: seq<Door>) returns (front: seq<Door>, back: seq<Door>)
    requires a != [] && multiset(a) == multiset(b)
    ensures b == front + [a[0]] + back && multiset(a[1..]) == multiset(front + back)
  {
    BagWithoutFirst(a);
    assert a[0] in multiset(b);
    var k :| 0 <= k < |b| && b[k] == a[0];
    front, back := b[..k], b[k + 1..];
    BagWithout(b, k);
  }

  lemma {:induction false} TotalWidthMiddle(front: seq<Door>, d: Door, back: seq<Door>)
    ensures TotalWidth(front + [d] + back) == d.width + TotalWidth(front + back)
    decreases |front|
  {
    if front == [] {
      assert front + [d] + back == [d] + back;
      assert front + back == back;
    } else {
      TotalWidthMiddle(front[1..], d, back);
      assert (front + [d] + back)[1..] == front[1..] + [d] + back;
      assert (front + back)[1..] == front[1..] + back;
    }
  }

  ghost predicate Inside(s: Segment, x: real) {
    s.Start() < x < s.End()
  }

  ghost predicate SolidAt(segments: seq<Segment>, x: real) {
    exists s :: s in segments && Inside(s, x)
  }

  ghost predicate OpenAt(doors: seq<Door>, x: real) {
    exists d :: d in doors && d.Covers(x)
  }

  lemma {:induction false} PiecesBeyond(half: real, cursor: real, doors: seq<Door>, x: real)
    requires CutFrom(half, cursor, doors).Segments? && Widths(doors) && x <= cursor
    ensures !SolidAt(CutFrom(half, cursor, doors).segments, x) && !OpenAt(doors, x)
    decreases |doors|
  {
    if doors != [] {
      var d := doors[0];
      assert d in doors && doors == [d] + doors[1..];
      PiecesBeyond(half, d.Right(), doors[1..], x);
    }
  }

  /** Every point between the cursor and the right end is inside a piece or in a door, never both. */
  lemma {:induction false} SolidOrOpen(half: real, cursor: real, doors: seq<Door>, x: real)
    requires CutFrom(half, cursor, doors).Segments? && Widths(doors)
    requires cursor < x < half
    ensures SolidAt(CutFrom(half, cursor, doors).segments, x) != OpenAt(doors, x)
    decreases |doors|
  {
    if doors == [] {
      var s := Segment(half - cursor, (cursor + half) / 2.0);
      assert CutFrom(half, cursor, doors).segments == [s];
      assert s in [s] && Inside(s, x);
    } else {
      var d := doors[0];
      assert d in doors && doors == [d] + doors[1..];
      var first := Segment(d.Left() - cursor, (cursor + d.Left()) / 2.0);
      assert first in CutFrom(half, cursor, doors).segments;
      assert Inside(first, x) <==> x < d.Left();
      if x <= d.Right() {
        PiecesBeyond(half, d.Right(), doors[1..], x);
      } else {
        SolidOrOpen(half, d.Right(), doors[1..], x);
      }
    }
  }

  /** The whole wall: pieces and doors tile it without overlap, and their lengths add up. */
  lemma WallTiled(wallLength: real, doors: seq<Door>, x: real)
    requires CutWall(wallLength, doors).Segments? && Widths(doors)
    requires -(wallLength / 2.0) < x < wallLength / 2.0
    ensures SolidAt(CutWall(wallLength, doors).segments, x) != OpenAt(doors, x)
    ensures TotalLength(CutWall(wallLength, doors).segments) + TotalWidth(doors) == wallLength
  {
    hide CutFrom, Sorted, SolidAt;
    var half := wallLength / 2.0;
    var sorted := Sorted(doors);
    SameDoors(doors, sorted, x);
    SolidOrOpen(half, -half, sorted, x);
    LengthsAddUp(half, -half, sorted);
    TotalWidthOfBag(doors, sorted);
  }

  lemma SameDoors(doors: seq<Door>, sorted: seq<Door>, x: real)
    requires multiset(doors) == multiset(sorted)
    ensures OpenAt(doors, x) <==> OpenAt(sorted, x)
    ensures Widths(doors) <==> Widths(sorted)
  {
    assert forall d :: d in doors <==> d in multiset(doors);
    assert forall d :: d in sorted <==> d in multiset(sorted);
  }

  // ----- The order in which the doors are listed does not matter

  ghost predicate StrictlyOrdered(doors: seq<Door>) {
    forall i, j :: 0 <= i < j < |doors| ==> doors[i].Left() < doors[j].Left()
  }

  lemma SameFirst(a: seq<Door>, b: seq<Door>)
    requires a != [] && b != [] && a[0] in b && b[0] in a
    requires StrictlyOrdered(a) && Ordered(b)
    ensures a[0] == b[0]
  {
  }

  lemma {:induction false} StrictOrderUnique(a: seq<Door>, b: seq<Door>)
    requires multiset(a) == multiset(b) && StrictlyOrdered(a) && Ordered(b)
    ensures a == b
    decreases |a|
  {
    assert |multiset(a)| == |a| && |multiset(b)| == |b|;
    if a != [] {
      BagWithoutFirst(a);
      BagWithoutFirst(b);
      SameFirst(a, b);
      StrictOrderUnique(a[1..], b[1..]);
      assert a == [a[0]] + a[1..] && b == [b[0]] + b[1..];
    }
  }

  lemma DoorOrderIrrelevant(wallLength: real, a: seq<Door>, b: seq<Door>)
    requires multiset(a) == multiset(b) && Widths(a)
    ensures CutWall(wallLength, a).Segments? <==> CutWall(wallLength, b).Segments?
    ensures CutWall(wallLength, a).Segments? ==> CutWall(wallLength, a) == CutWall(wallLength, b)
  {
    hide CutFrom, Sorted, Fits, FitsBag, Ordered, Widths;
    var half := wallLength / 2.0;
    SameDoors(a, b, 0.0);
    SameDoors(a, Sorted(a), 0.0);
    CutWallSucceedsIff(wallLength, a);
    CutWallSucceedsIff(wallLength, b);
    FitsIffFitsBag(half, a);
    FitsIffFitsBag(half, b);
    if CutWall(wallLength, a).Segments? {
      SortedOrdered(a);
      SortedOrdered(b);
      StrictlySorted(half, Sorted(a));
      StrictOrderUnique(Sorted(a), Sorted(b));
    }
  }

  lemma StrictlySorted(half: real, doors: seq<Door>)
    requires CutFrom(half, -half, doors).Segments? && Ordered(doors) && Widths(doors)
    ensures StrictlyOrdered(doors)
  {
    hide CutFrom;
    CutSucceedsIff(half, -half, doors);
    forall i, j | 0 <= i < j < |doors|
      ensures doors[i].Left() < doors[j].Left()
    {
      ChainOrders(half, -half, doors, i, j);
      assert doors[i] in doors;
    }
  }
}
