/** Frontier extraction from an occupancy grid: the flood fill finds exactly the connected
    components of the frontier, whatever order the cells are visited in. */
module Frontier {
  import Grids
  import RealMath

  type Cell = (int, int)
  type Point = (real, real)

  const MIN_FRONTIER_CELLS: nat := 20
  const FREE: int := 0
  const UNKNOWN: int := -1

  datatype Grid = Grid(width: nat, height: nat, data: seq<int>, resolution: real, originX: real, originY: real) {
    predicate Valid() {
      |data| == height * width
    }

    function At(r: nat, c: nat): int
      requires Valid() && r < height && c < width
    {
      Grids.RowMajor(r, c, width, height);
      data[r * width + c]
    }
  }

  // ----- What a frontier is

  /** A free cell inside the border with an unknown 4-neighbour. */
  predicate IsFrontier(g: Grid, r: int, c: int)
    requires g.Valid()
  {
    && 1 <= r < g.height - 1 && 1 <= c < g.width - 1
    && g.At(r, c) == FREE
    && (g.At(r - 1, c) == UNKNOWN || g.At(r + 1, c) == UNKNOWN || g.At(r, c - 1) == UNKNOWN
        || g.At(r, c + 1) == UNKNOWN)
  }

  ghost function FrontierCells(g: Grid): set<Cell>
    requires g.Valid()
  {
    set r, c | 1 <= r < g.height - 1 && 1 <= c < g.width - 1 && IsFrontier(g, r, c) :: (r, c)
  }

  /** 8-neighbours. */
  predicate Touch(a: Cell, b: Cell) {
    a != b && -1 <= a.0 - b.0 <= 1 && -1 <= a.1 - b.1 <= 1
  }

  /** A path of touching cells inside `cells`. */
  ghost predicate Walk(cells: set<Cell>, path: seq<Cell>) {
    && path != []
    && (forall i :: 0 <= i < |path| ==> path[i] in cells)
    && (forall i :: 0 <= i < |path| - 1 ==> Touch(path[i], path[i + 1]))
  }

  ghost predicate Joins(cells: set<Cell>, path: seq<Cell>, a: Cell, b: Cell) {
    Walk(cells, path) && path[0] == a && path[|path| - 1] == b
  }

  ghost predicate Linked(cells: set<Cell>, a: Cell, b: Cell) {
    exists path :: Joins(cells, path, a, b)
  }

  ghost function Component(cells: set<Cell>, a: Cell): set<Cell> {
    set b | b in cells && Linked(cells, a, b)
  }

  ghost function Components(cells: set<Cell>): set<set<Cell>> {
    set a | a in cells :: Component(cells, a)
  }

  // ----- Linked is an equivalence, so the components are a partition

  lemma LinkedSelf(cells: set<Cell>, a: Cell)
    requires a in cells
    ensures Linked(cells, a, a)
  {
    assert Joins(cells, [a], a, a);
  }

  lemma LinkedStep(cells: set<Cell>, a: Cell, b: Cell, c: Cell)
    requires Linked(cells, a, b) && c in cells && Touch(b, c)
    ensures Linked(cells, a, c)
  {
    var path :| Joins(cells, path, a, b);
    assert Joins(cells, path + [c], a, c);
  }

  lemma LinkedBack(cells: set<Cell>, a: Cell, b: Cell)
    requires Linked(cells, a, b)
    ensures Linked(cells, b, a)
  {
    var path :| Joins(cells, path, a, b);
    var back := seq(|path|, i requires 0 <= i < |path| => path[|path| - 1 - i]);
    forall i | 0 <= i < |back| - 1
      ensures Touch(back[i], back[i + 1])
    {
      assert Touch(path[|path| - 2 - i], path[|path| - 2 - i + 1]);
    }
    assert Joins(cells, back, b, a);
  }

  lemma LinkedThrough(cells: set<Cell>, a: Cell, b: Cell, c: Cell)
    requires Linked(cells, a, b) && Linked(cells, b, c)
    ensures Linked(cells, a, c)
  {
    var there :| Joins(cells, there, a, b);
    var on :| Joins(cells, on, b, c);
    var path := there + on[1..];
    forall i | 0 <= i < |path| - 1
      ensures Touch(path[i], path[i + 1])
    {
      if i < |there| - 1 {
        assert Touch(there[i], there[i + 1]);
      } else {
        var k := i - (|there| - 1);
        assert Touch(on[k], on[k + 1]);
      }
    }
    assert Joins(cells, path, a, c);
  }

  /** Two cells of one component have the same component. */
  lemma ComponentOfMember(cells: set<Cell>, a: Cell, b: Cell)
    requires a in cells && b in Component(cells, a)
    ensures Component(cells, a) == Component(cells, b)
  {
    LinkedBack(cells, a, b);
    forall c | c in cells
      ensures Linked(cells, a, c) <==> Linked(cells, b, c)
    {
      if Linked(cells, a, c) {
        LinkedThrough(cells, b, a, c);
      }
      if Linked(cells, b, c) {
        LinkedThrough(cells, a, b, c);
      }
    }
  }

  /** Every frontier cell lies in a component... */
  lemma ComponentsCover(cells: set<Cell>, a: Cell)
    requires a in cells
    ensures a in Component(cells, a) && Component(cells, a) in Components(cells)
  {
    LinkedSelf(cells, a);
  }

  function SquaredDistance(a: Cell, b: Cell): int {
    (a.0 - b.0) * (a.0 - b.0) + (a.1 - b.1) * (a.1 - b.1)
  }

  /** Side and corner neighbours are the other cells whose centres are at most the square root of two apart. */
  lemma TouchDistance(a: Cell, b: Cell)
    ensures Touch(a, b) <==> a != b && SquaredDistance(a, b) <= 2
  {
    SmallSquare(a.0 - b.0);
    SmallSquare(a.1 - b.1);
  }

  lemma SmallSquare(d: int)
    ensures d * d >= 0
    ensures -1 <= d <= 1 <==> d * d <= 1
    ensures !(-1 <= d <= 1) ==> d * d >= 4
  {
    if d >= 2 {
      assert d * d >= 2 * d;
    } else if d <= -2 {
      assert -d * -d >= 2 * -d;
    }
  }

  /** ... and components that share a cell, or hold two cells that are neighbours by side or corner, are the same. */
  lemma ComponentsApart(cells: set<Cell>, part: set<Cell>, other: set<Cell>, a: Cell, b: Cell)
    requires part in Components(cells) && other in Components(cells)
    requires a in part && b in other && SquaredDistance(a, b) <= 2
    ensures part == other
  {
    TouchDistance(a, b);
    var x :| x in cells && part == Component(cells, x);
    var y :| y in cells && other == Component(cells, y);
    if a != b {
      LinkedStep(cells, x, a, b);
    }
    ComponentOfMember(cells, x, b);
    ComponentOfMember(cells, y, b);
  }

  /** Any two cells of a component are joined by a path that stays inside the component. */
  lemma ComponentConnected(cells: set<Cell>, part: set<Cell>, a: Cell, b: Cell)
    requires part in Components(cells) && a in part && b in part
    ensures Linked(part, a, b)
  {
    var x :| x in cells && part == Component(cells, x);
    LinkedBack(cells, x, a);
    LinkedThrough(cells, a, x, b);
    var path :| Joins(cells, path, a, b);
    forall i | 0 <= i < |path|
      ensures path[i] in part
    {
      assert Joins(cells, path[..i + 1], a, path[i]) by {
        assert forall k :: 0 <= k < i ==> Touch(path[k], path[k + 1]);
      }
      LinkedThrough(cells, x, a, path[i]);
    }
    assert Joins(part, path, a, b);
  }

  /** A set that contains a cell and everything touching it contains the cell's component. */
  lemma {:induction false} ClosedSetHoldsWalk(cells: set<Cell>, closed: set<Cell>, path: seq<Cell>)
    requires Walk(cells, path) && path[0] in closed
    requires forall a, b :: a in closed && b in cells && Touch(a, b) ==> b in closed
    ensures path[|path| - 1] in closed
    decreases |path|
  {
    if |path| > 1 {
      assert Touch(path[0], path[1]);
      forall i | 0 <= i < |path[1..]| - 1
        ensures Touch(path[1..][i], path[1..][i + 1])
      {
        assert Touch(path[i + 1], path[i + 1 + 1]);
      }
      ClosedSetHoldsWalk(cells, closed, path[1..]);
    }
  }

  lemma ClosedSetHoldsComponent(cells: set<Cell>, closed: set<Cell>, a: Cell)
    requires a in closed
    requires forall x, y :: x in closed && y in cells && Touch(x, y) ==> y in closed
    ensures Component(cells, a) <= closed
  {
    forall b | b in Component(cells, a)
      ensures b in closed
    {
      var path :| Joins(cells, path, a, b);
      ClosedSetHoldsWalk(cells, closed, path);
    }
  }

  /** A component cannot be split: wherever it is cut in two, some cell on one side is a neighbour by side or
      corner of a cell on the other. */
  lemma ComponentUnsplit(cells: set<Cell>, part: set<Cell>, side: set<Cell>)
    requires part in Components(cells) && side < part && side != {}
    ensures exists a, b :: a in side && b in part - side && SquaredDistance(a, b) <= 2
  {
    var x :| x in cells && part == Component(cells, x);
    if forall a, b :: a in side && b in part - side ==> SquaredDistance(a, b) > 2 {
      forall a, b | a in side && b in cells && Touch(a, b)
        ensures b in side
      {
        LinkedStep(cells, x, a, b);
        TouchDistance(a, b);
      }
      var seed :| seed in side;
      ComponentOfMember(cells, x, seed);
      ClosedSetHoldsComponent(cells, side, seed);
      assert false;
    }
  }

  /** The frontier in terms of the map data, which lists the cells row by row: the cells off the border that hold
      0 while the cell before, after, above or below holds -1. */
  lemma FrontierCellIff(g: Grid, r: int, c: int)
    requires g.Valid()
    ensures (r, c) in FrontierCells(g) <==>
            && 0 < r < g.height - 1 && 0 < c < g.width - 1
            && var i := r * g.width + c;
               && g.width <= i < |g.data| - g.width
               && g.data[i] == 0
               && -1 in [g.data[i - 1], g.data[i + 1], g.data[i - g.width], g.data[i + g.width]]
  {
    if 0 < r < g.height - 1 && 0 < c < g.width - 1 {
      var i := r * g.width + c;
      RowAbove(r, g.width);
      Grids.RowMajor(r + 1, c, g.width, g.height);
      assert g.At(r - 1, c) == g.data[i - g.width] && g.At(r + 1, c) == g.data[i + g.width];
    }
  }

  lemma RowAbove(r: int, width: nat)
    requires r >= 1
    ensures (r - 1) * width == r * width - width && (r + 1) * width == r * width + width && r * width >= width
  {
  }

  // ----- Centroids

  ghost function RowSum(part: set<Cell>): int {
    if part == {} then 0 else
      var x :| x in part;
      x.0 + RowSum(part - {x})
  }

  ghost function ColSum(part: set<Cell>): int {
    if part == {} then 0 else
      var x :| x in part;
      x.1 + ColSum(part - {x})
  }

  lemma {:induction false} RowSumWithout(part: set<Cell>, a: Cell)
    requires a in part
    ensures RowSum(part) == a.0 + RowSum(part - {a})
    decreases part
  {
    var x :| x in part && RowSum(part) == x.0 + RowSum(part - {x});
    if x != a {
      RowSumWithout(part - {x}, a);
      RowSumWithout(part - {a}, x);
      assert part - {x} - {a} == part - {a} - {x};
    }
  }

  lemma {:induction false} ColSumWithout(part: set<Cell>, a: Cell)
    requires a in part
    ensures ColSum(part) == a.1 + ColSum(part - {a})
    decreases part
  {
    var x :| x in part && ColSum(part) == x.1 + ColSum(part - {x});
    if x != a {
      ColSumWithout(part - {x}, a);
      ColSumWithout(part - {a}, x);
      assert part - {x} - {a} == part - {a} - {x};
    }
  }

  function Mean(sum: int, size: nat): real
    requires size > 0
  {
    sum as real / size as real
  }

  /** The world coordinate of a mean row or column: cells are located by their centres. */
  function World(origin: real, mean: real, resolution: real): real {
    origin + (mean + 0.5) * resolution
  }

  function PointAt(g: Grid, rowSum: int, colSum: int, size: nat): Point
    requires size > 0
  {
    (World(g.originX, Mean(colSum, size), g.resolution), World(g.originY, Mean(rowSum, size), g.resolution))
  }

  /** The points a component contributes: its centroid, if it is large enough. */
  ghost function Contribution(g: Grid, part: set<Cell>): multiset<Point> {
    if |part| >= MIN_FRONTIER_CELLS then multiset{PointAt(g, RowSum(part), ColSum(part), |part|)} else multiset{}
  }

  /** The points a whole set of components contributes, as a multiset. */
  ghost function Centroids(g: Grid, parts: set<set<Cell>>): multiset<Point> {
    if parts == {} then multiset{} else
      var part :| part in parts;
      Contribution(g, part) + Centroids(g, parts - {part})
  }

  lemma {:induction false} CentroidsWithout(g: Grid, parts: set<set<Cell>>, part: set<Cell>)
    requires part in parts
    ensures Centroids(g, parts) == Contribution(g, part) + Centroids(g, parts - {part})
    decreases parts
  {
    var x :| x in parts && Centroids(g, parts) == Contribution(g, x) + Centroids(g, parts - {x});
    if x != part {
      CentroidsWithout(g, parts - {x}, part);
      CentroidsWithout(g, parts - {part}, x);
      assert parts - {x} - {part} == parts - {part} - {x};
    }
  }

  // ----- The algorithm

  const OFFSETS: seq<Cell> := [(-1, 0), (1, 0), (0, -1), (0, 1)]

  ghost predicate Before(x: Cell, r: int, c: int) {
    x.0 < r || (x.0 == r && x.1 < c)
  }

  method CollectFrontier(g: Grid) returns (frontier: set<Cell>)
    requires g.Valid()
    ensures frontier == FrontierCells(g)
  {
    frontier := {};
    var r := 1;
    while r < g.height - 1
      invariant 1 <= r
      invariant forall x: Cell :: x in frontier <==> Before(x, r, 1) && IsFrontier(g, x.0, x.1)
    {
      var c := 1;
      while c < g.width - 1
        invariant 1 <= c
        invariant forall x: Cell :: x in frontier <==> Before(x, r, c) && IsFrontier(g, x.0, x.1)
      {
        var isFrontier := FreeNextToUnknown(g, r, c);
        if isFrontier {
          frontier := frontier + {(r, c)};
        }
        c := c + 1;
      }
      r := r + 1;
    }
  }

  method FreeNextToUnknown(g: Grid, r: int, c: int) returns (yes: bool)
    requires g.Valid() && 1 <= r < g.height - 1 && 1 <= c < g.width - 1
    ensures yes <==> IsFrontier(g, r, c)
  {
    if g.At(r, c) != FREE {
      return false;
    }
    for k := 0 to |OFFSETS|
      invariant k > 0 ==> g.At(r - 1, c) != UNKNOWN
      invariant k > 1 ==> g.At(r + 1, c) != UNKNOWN
      invariant k > 2 ==> g.At(r, c - 1) != UNKNOWN
      invariant k > 3 ==> g.At(r, c + 1) != UNKNOWN
    {
      if g.At(r + OFFSETS[k].0, c + OFFSETS[k].1) == UNKNOWN {
        return true;
      }
    }
    return false;
  }

  ghost predicate Distinct<T>(s: seq<T>) {
    forall i, j :: 0 <= i < j < |s| ==> s[i] != s[j]
  }

  ghost function Elements<T>(s: seq<T>): set<T> {
    set x | x in s
  }

  lemma DistinctAppend<T>(s: seq<T>, t: seq<T>)
    requires Distinct(s) && Distinct(t) && Elements(s) !! Elements(t)
    ensures Distinct(s + t) && Elements(s + t) == Elements(s) + Elements(t)
  {
    forall i, j | 0 <= i < j < |s + t|
      ensures (s + t)[i] != (s + t)[j]
    {
      if i < |s| <= j {
        assert s[i] in Elements(s) && t[j - |s|] in Elements(t);
      }
    }
  }

  lemma DistinctPop<T>(s: seq<T>)
    requires Distinct(s) && s != []
    ensures Distinct(s[..|s| - 1]) && Elements(s[..|s| - 1]) == Elements(s) - {s[|s| - 1]}
  {
    var last := s[|s| - 1];
    forall x | x in Elements(s) && x != last
      ensures x in s[..|s| - 1]
    {
      var i :| 0 <= i < |s| && s[i] == x;
      assert s[..|s| - 1][i] == x;
    }
  }

  ghost function Neighbours(cells: set<Cell>, cell: Cell): set<Cell> {
    set y | y in cells && Touch(cell, y)
  }

  /** Marks the unvisited neighbours of a cell and pushes them. */
  method VisitNeighbours(cells: set<Cell>, visited: set<Cell>, cell: Cell)
      returns (visited': set<Cell>, pushed: seq<Cell>)
    requires cell in visited
    ensures visited' == visited + Neighbours(cells, cell)
    ensures Distinct(pushed) && Elements(pushed) == visited' - visited
  {
    visited', pushed := visited, [];
    for dr := -1 to 2
      invariant forall y :: y in visited' <==>
        y in visited || (y in cells && Touch(cell, y) && y.0 - cell.0 < dr)
      invariant Distinct(pushed) && Elements(pushed) == visited' - visited
    {
      for dc := -1 to 2
        invariant forall y :: y in visited' <==>
          y in visited || (y in cells && Touch(cell, y) && Before((y.0 - cell.0, y.1 - cell.1), dr, dc))
        invariant Distinct(pushed) && Elements(pushed) == visited' - visited
      {
        if !(dr == 0 && dc == 0) {
          var nb := (cell.0 + dr, cell.1 + dc);
          if nb in cells && nb !in visited' {
            visited' := visited' + {nb};
            DistinctAppend(pushed, [nb]);
            pushed := pushed + [nb];
          }
        }
      }
    }
  }

  ghost predicate Closed(cells: set<Cell>, visited: set<Cell>) {
    visited <= cells && forall a, b :: a in visited && b in cells && Touch(a, b) ==> b in visited
  }

  /** What holds while a cluster grows: the cells listed so far and those on the stack are the newly
      visited ones, all linked to the seed, and every neighbour of a listed cell has been visited. */
  ghost predicate Filling(cells: set<Cell>, visited0: set<Cell>, seed: Cell,
                          cluster: seq<Cell>, stack: seq<Cell>, visited: set<Cell>)
  {
    && visited0 <= visited <= cells && seed in visited - visited0
    && Distinct(cluster) && Distinct(stack) && Elements(cluster) !! Elements(stack)
    && Elements(cluster) + Elements(stack) == visited - visited0
    && (forall x :: x in visited - visited0 ==> Linked(cells, seed, x))
    && (forall x, y :: x in Elements(cluster) && y in cells && Touch(x, y) ==> y in visited)
  }

  lemma FillingStep(cells: set<Cell>, visited0: set<Cell>, seed: Cell, cluster: seq<Cell>, stack: seq<Cell>,
                    visited: set<Cell>, visited': set<Cell>, pushed: seq<Cell>)
    requires Filling(cells, visited0, seed, cluster, stack, visited) && stack != []
    requires visited' == visited + Neighbours(cells, stack[|stack| - 1])
    requires Distinct(pushed) && Elements(pushed) == visited' - visited
    ensures Filling(cells, visited0, seed, cluster + [stack[|stack| - 1]], stack[..|stack| - 1] + pushed, visited')
    ensures |cells - visited'| <= |cells - visited|
    ensures pushed != [] ==> |cells - visited'| < |cells - visited|
  {
    var cell := stack[|stack| - 1];
    DistinctPop(stack);
    assert cell in Elements(stack);
    DistinctAppend(cluster, [cell]);
    DistinctAppend(stack[..|stack| - 1], pushed);
    forall y | y in Neighbours(cells, cell)
      ensures Linked(cells, seed, y)
    {
      LinkedStep(cells, seed, cell, y);
    }
    FewerUnvisited(cells, visited, visited', pushed);
  }

  lemma FillingStart(cells: set<Cell>, visited0: set<Cell>, seed: Cell)
    requires Closed(cells, visited0) && seed in cells && seed !in visited0
    ensures Filling(cells, visited0, seed, [], [seed], visited0 + {seed})
  {
    LinkedSelf(cells, seed);
  }

  /** Grows one cluster from a seed: exactly the seed's component, every cell once. */
  method FloodFill(cells: set<Cell>, visited0: set<Cell>, seed: Cell) returns (cluster: seq<Cell>, visited: set<Cell>)
    requires Closed(cells, visited0) && seed in cells && seed !in visited0
    ensures Distinct(cluster) && Elements(cluster) == Component(cells, seed)
    ensures visited == visited0 + Component(cells, seed)
    ensures visited0 !! Component(cells, seed)
  {
    hide Filling, Component, Elements, Distinct;
    cluster := [];
    var stack := [seed];
    visited := visited0 + {seed};
    FillingStart(cells, visited0, seed);
    while stack != []
      invariant Filling(cells, visited0, seed, cluster, stack, visited)
      decreases |cells - visited|, |stack|
    {
      var cell := stack[|stack| - 1];
      FillingFacts(cells, visited0, seed, cluster, stack, visited);
      var visited', pushed := VisitNeighbours(cells, visited, cell);
      FillingStep(cells, visited0, seed, cluster, stack, visited, visited', pushed);
      stack := stack[..|stack| - 1] + pushed;
      cluster := cluster + [cell];
      visited := visited';
    }
    ClusterIsComponent(cells, visited0, seed, cluster, visited);
  }

  lemma FillingFacts(cells: set<Cell>, visited0: set<Cell>, seed: Cell, cluster: seq<Cell>, stack: seq<Cell>,
                     visited: set<Cell>)
    requires Filling(cells, visited0, seed, cluster, stack, visited) && stack != []
    ensures stack[|stack| - 1] in visited
  {
    assert stack[|stack| - 1] in Elements(stack);
  }

  lemma FewerUnvisited(cells: set<Cell>, visited: set<Cell>, visited': set<Cell>, pushed: seq<Cell>)
    requires visited <= visited' <= cells && Elements(pushed) == visited' - visited
    ensures |cells - visited'| <= |cells - visited|
    ensures pushed != [] ==> |cells - visited'| < |cells - visited|
  {
    SubsetSize(cells - visited', cells - visited);
    if pushed != [] {
      assert pushed[0] in Elements(pushed);
      assert pushed[0] in cells - visited && pushed[0] !in cells - visited';
      SubsetSize(cells - visited', cells - visited - {pushed[0]});
    }
  }

  lemma {:induction false} SubsetSize<T>(a: set<T>, b: set<T>)
    requires a <= b
    ensures |a| <= |b|
    decreases a
  {
    if a != {} {
      var x :| x in a;
      SubsetSize(a - {x}, b - {x});
    }
  }

  lemma ClusterIsComponent(cells: set<Cell>, visited0: set<Cell>, seed: Cell, cluster: seq<Cell>, visited: set<Cell>)
    requires Closed(cells, visited0) && seed in cells
    requires Filling(cells, visited0, seed, cluster, [], visited)
    ensures Distinct(cluster) && Elements(cluster) == Component(cells, seed)
    ensures visited == visited0 + Component(cells, seed) && visited0 !! Component(cells, seed)
  {
    ClosedSetHoldsComponent(cells, visited, seed);
    assert Elements<Cell>([]) == {};
    // a cell visited earlier and linked to the seed would have carried the seed along
    forall x | x in Component(cells, seed)
      ensures x !in visited0
    {
      if x in visited0 {
        LinkedBack(cells, seed, x);
        assert seed in Component(cells, x);
        ClosedSetHoldsComponent(cells, visited0, x);
        assert false;
      }
    }
  }

  // ----- The centroid of a cluster list

  function SumRows(cluster: seq<Cell>): int {
    if cluster == [] then 0 else SumRows(cluster[..|cluster| - 1]) + cluster[|cluster| - 1].0
  }

  function SumCols(cluster: seq<Cell>): int {
    if cluster == [] then 0 else SumCols(cluster[..|cluster| - 1]) + cluster[|cluster| - 1].1
  }

  /** The sums and the size do not depend on the order in which the cells were found. */
  lemma {:induction false} SumsOfDistinct(cluster: seq<Cell>)
    requires Distinct(cluster)
    ensures SumRows(cluster) == RowSum(Elements(cluster))
    ensures SumCols(cluster) == ColSum(Elements(cluster))
    ensures |cluster| == |Elements(cluster)|
    decreases |cluster|
  {
    if cluster == [] {
      assert Elements(cluster) == {};
    } else {
      var last := cluster[|cluster| - 1];
      assert last in Elements(cluster);
      DistinctPop(cluster);
      SumsOfDistinct(cluster[..|cluster| - 1]);
      RowSumWithout(Elements(cluster), last);
      ColSumWithout(Elements(cluster), last);
    }
  }

  lemma ClusterContribution(g: Grid, cluster: seq<Cell>)
    requires Distinct(cluster)
    ensures Contribution(g, Elements(cluster)) ==
            if |cluster| >= MIN_FRONTIER_CELLS
            then multiset{PointAt(g, SumRows(cluster), SumCols(cluster), |cluster|)} else multiset{}
  {
    SumsOfDistinct(cluster);
  }

  // ----- All clusters

  /** Bookkeeping between seeds: what has been visited is a union of found components. */
  ghost predicate Found(cells: set<Cell>, seeds: set<Cell>, visited: set<Cell>, found: set<set<Cell>>) {
    && seeds <= cells && cells - seeds <= visited
    && Closed(cells, visited)
    && found <= Components(cells)
    && (forall a :: a in visited ==> Component(cells, a) in found)
    && (forall part :: part in found ==> part <= visited)
  }

  lemma FoundStep(cells: set<Cell>, seeds: set<Cell>, visited: set<Cell>, found: set<set<Cell>>, seed: Cell)
    requires Found(cells, seeds, visited, found) && seed in seeds && seed !in visited
    ensures var part := Component(cells, seed);
            part !in found && Found(cells, seeds - {seed}, visited + part, found + {part})
  {
    var part := Component(cells, seed);
    ComponentsCover(cells, seed);
    forall a | a in part
      ensures Component(cells, a) == part
    {
      ComponentOfMember(cells, seed, a);
    }
    forall a, b | a in part && b in cells && Touch(a, b)
      ensures b in part
    {
      LinkedStep(cells, seed, a, b);
    }
  }

  lemma FoundSkip(cells: set<Cell>, seeds: set<Cell>, visited: set<Cell>, found: set<set<Cell>>, seed: Cell)
    requires Found(cells, seeds, visited, found) && seed in visited
    ensures Found(cells, seeds - {seed}, visited, found)
  {
  }

  lemma FoundAll(cells: set<Cell>, visited: set<Cell>, found: set<set<Cell>>)
    requires Found(cells, {}, visited, found)
    ensures found == Components(cells)
  {
  }

  /** Frontier extraction.  The seeds are taken in any order, as from a hash set; the result is the
      centroids of the large components, each exactly once. */
  method ComputeFrontiers(g: Grid) returns (centroids: seq<Point>)
    requires g.Valid()
    ensures multiset(centroids) == Centroids(g, Components(FrontierCells(g)))
    ensures |centroids| == |set part | part in Components(FrontierCells(g)) && |part| >= 20|
    ensures forall p :: p in centroids <==>
              exists part :: part in Components(FrontierCells(g)) && |part| >= 20 && IsCentroid(g, part, p)
  {
    hide Found, Component, Components, FrontierCells, Centroids, Contribution, Elements, Distinct, SumRows, SumCols,
         PointAt, IsCentroid, Large;
    var frontier := CollectFrontier(g);
    var visited: set<Cell> := {};
    centroids := [];
    var seeds := frontier;
    ghost var found: set<set<Cell>> := {};
    FoundNone(g, frontier);
    while seeds != {}
      invariant Found(frontier, seeds, visited, found)
      invariant multiset(centroids) == Centroids(g, found)
      decreases |seeds|
    {
      var seed :| seed in seeds;
      if seed in visited {
        FoundSkip(frontier, seeds, visited, found, seed);
      } else {
        FoundFacts(frontier, seeds, visited, found);
        FoundStep(frontier, seeds, visited, found, seed);
        ghost var part := Component(frontier, seed);
        CentroidsWithout(g, found + {part}, part);
        assert found + {part} - {part} == found;
        found := found + {part};
        var cluster;
        cluster, visited := FloodFill(frontier, visited, seed);
        ClusterContribution(g, cluster);
        if |cluster| >= MIN_FRONTIER_CELLS {
          centroids := centroids + [PointAt(g, SumRows(cluster), SumCols(cluster), |cluster|)];
        }
      }
      seeds := seeds - {seed};
    }
    FoundAll(frontier, visited, found);
    CentroidCount(g, found);
    LargeIs(found);
    forall p: Point
      ensures p in Centroids(g, found) <==> exists part :: part in found && |part| >= 20 && IsCentroid(g, part, p)
    {
      ReturnedIff(g, found, p);
    }
    assert forall p: Point :: p in centroids <==> p in multiset(centroids);
  }

  lemma FoundNone(g: Grid, cells: set<Cell>)
    ensures Found(cells, cells, {}, {}) && Centroids(g, {}) == multiset{}
  {
  }

  lemma FoundFacts(cells: set<Cell>, seeds: set<Cell>, visited: set<Cell>, found: set<set<Cell>>)
    requires Found(cells, seeds, visited, found)
    ensures seeds <= cells && Closed(cells, visited)
  {
  }

  // ----- What the answer says

  ghost function Large(parts: set<set<Cell>>): set<set<Cell>> {
    set part | part in parts && |part| >= MIN_FRONTIER_CELLS
  }

  /** One point per component of at least twenty cells. */
  lemma {:induction false} CentroidCount(g: Grid, parts: set<set<Cell>>)
    ensures |Centroids(g, parts)| == |Large(parts)|
    decreases parts
  {
    if parts == {} {
      assert Large(parts) == {};
    } else {
      var x :| x in parts;
      CentroidsWithout(g, parts, x);
      CentroidCount(g, parts - {x});
      LargeWithout(g, parts, x);
    }
  }

  lemma LargeWithout(g: Grid, parts: set<set<Cell>>, x: set<Cell>)
    requires x in parts
    ensures |Large(parts)| == |Contribution(g, x)| + |Large(parts - {x})|
  {
    var rest := Large(parts - {x});
    if |x| >= MIN_FRONTIER_CELLS {
      assert Large(parts) == rest + {x};
      assert x !in rest;
    } else {
      assert Large(parts) == rest;
    }
  }

  lemma {:induction false} RowSumBounds(part: set<Cell>, bound: int)
    requires forall x :: x in part ==> 1 <= x.0 <= bound
    ensures |part| <= RowSum(part) <= |part| * bound
    decreases part
  {
    if part != {} {
      var x :| x in part;
      RowSumWithout(part, x);
      RowSumBounds(part - {x}, bound);
      assert |part| == |part - {x}| + 1;
      OneMore(|part - {x}|, bound);
    }
  }

  lemma {:induction false} ColSumBounds(part: set<Cell>, bound: int)
    requires forall x :: x in part ==> 1 <= x.1 <= bound
    ensures |part| <= ColSum(part) <= |part| * bound
    decreases part
  {
    if part != {} {
      var x :| x in part;
      ColSumWithout(part, x);
      ColSumBounds(part - {x}, bound);
      assert |part| == |part - {x}| + 1;
      OneMore(|part - {x}|, bound);
    }
  }

  lemma OneMore(n: int, bound: int)
    ensures (n + 1) * bound == n * bound + bound
  {
  }

  lemma MeanBounds(sum: int, size: nat, bound: int)
    requires size > 0 && size <= sum <= size * bound
    ensures 1.0 <= Mean(sum, size) <= bound as real
  {
    RealMath.QuotientCompare(sum as real, size as real, 1.0);
    RealMath.QuotientCompare(sum as real, size as real, bound as real);
    assert (size * bound) as real == bound as real * size as real;
  }

  lemma WorldBounds(origin: real, mean: real, bound: real, resolution: real)
    requires 1.0 <= mean <= bound && resolution > 0.0
    ensures World(origin, 1.0, resolution) <= World(origin, mean, resolution) <= World(origin, bound, resolution)
  {
    RealMath.ProductMonotone(1.5, mean + 0.5, resolution);
    RealMath.ProductMonotone(mean + 0.5, bound + 0.5, resolution);
  }

  predicate InsideMap(g: Grid, p: Point) {
    && World(g.originX, 1.0, g.resolution) <= p.0 <= World(g.originX, (g.width - 2) as real, g.resolution)
    && World(g.originY, 1.0, g.resolution) <= p.1 <= World(g.originY, (g.height - 2) as real, g.resolution)
  }

  /** The centroid of a component lies over the inner cells of the map: between the centres of the second
      and the last but one column, and likewise for the rows. */
  lemma CentroidInside(g: Grid, part: set<Cell>)
    requires g.Valid() && g.resolution > 0.0
    requires part in Components(FrontierCells(g))
    ensures part != {}
    ensures InsideMap(g, PointAt(g, RowSum(part), ColSum(part), |part|))
  {
    hide Components, FrontierCells, RowSum, ColSum, World, Mean;
    var rows, cols := g.height - 2, g.width - 2;
    PartsInside(g, part);
    RowSumBounds(part, rows);
    ColSumBounds(part, cols);
    MeanBounds(RowSum(part), |part|, rows);
    MeanBounds(ColSum(part), |part|, cols);
    WorldBounds(g.originX, Mean(ColSum(part), |part|), cols as real, g.resolution);
    WorldBounds(g.originY, Mean(RowSum(part), |part|), rows as real, g.resolution);
  }

  /** The points of a set of components are exactly those of its large ones. */
  lemma {:induction false} PointOfLarge(g: Grid, parts: set<set<Cell>>, p: Point)
    ensures p in Centroids(g, parts) <==>
            exists part :: part in Large(parts) && p == PointAt(g, RowSum(part), ColSum(part), |part|)
    decreases parts
  {
    hide PointAt, RowSum, ColSum;
    if parts != {} {
      var x :| x in parts;
      CentroidsWithout(g, parts, x);
      PointOfLarge(g, parts - {x}, p);
      assert forall part :: part in Large(parts) <==> part in Large(parts - {x}) || part in Large({x});
    }
  }

  /** x is where the mean of `size` cells lies whose indices add up to `sum`, each cell taken at its centre, half
      a cell on from its index. */
  predicate AtMeanCentre(x: real, origin: real, sum: int, size: nat, resolution: real) {
    (x - origin) * size as real == (sum as real + 0.5 * size as real) * resolution
  }

  /** p is the mean of the centres of a component's cells. */
  ghost predicate IsCentroid(g: Grid, part: set<Cell>, p: Point) {
    && AtMeanCentre(p.0, g.originX, ColSum(part), |part|, g.resolution)
    && AtMeanCentre(p.1, g.originY, RowSum(part), |part|, g.resolution)
  }

  lemma MeanCentre(x: real, origin: real, sum: int, size: nat, resolution: real)
    requires size > 0
    ensures x == World(origin, Mean(sum, size), resolution) <==> AtMeanCentre(x, origin, sum, size, resolution)
  {
    ScaledMean(x, World(origin, Mean(sum, size), resolution), origin, sum as real, size as real, resolution);
  }

  lemma ScaledMean(x: real, y: real, origin: real, sum: real, size: real, resolution: real)
    requires size > 0.0 && y == origin + (sum / size + 0.5) * resolution
    ensures x == y <==> (x - origin) * size == (sum + 0.5 * size) * resolution
  {
    var mean := sum / size;
    assert (mean + 0.5) * size == sum + 0.5 * size;
    assert (y - origin) * size == ((mean + 0.5) * size) * resolution;
    if x < y {
      RealMath.ProductStrict(x - origin, y - origin, size);
    } else if y < x {
      RealMath.ProductStrict(y - origin, x - origin, size);
    }
  }

  lemma CentroidIff(g: Grid, part: set<Cell>, p: Point)
    requires |part| > 0
    ensures p == PointAt(g, RowSum(part), ColSum(part), |part|) <==> IsCentroid(g, part, p)
  {
    hide RowSum, ColSum, World, Mean, AtMeanCentre;
    MeanCentre(p.0, g.originX, ColSum(part), |part|, g.resolution);
    MeanCentre(p.1, g.originY, RowSum(part), |part|, g.resolution);
    assert p == (p.0, p.1);
  }

  lemma LargeIs(parts: set<set<Cell>>)
    ensures Large(parts) == set part | part in parts && |part| >= 20
  {
  }

  /** The points returned are exactly the centroids of the components of at least twenty cells. */
  lemma ReturnedIff(g: Grid, parts: set<set<Cell>>, p: Point)
    ensures p in Centroids(g, parts) <==> exists part :: part in parts && |part| >= 20 && IsCentroid(g, part, p)
  {
    hide PointAt, Centroids, IsCentroid, RowSum, ColSum;
    PointOfLarge(g, parts, p);
    if part :| part in Large(parts) && p == PointAt(g, RowSum(part), ColSum(part), |part|) {
      CentroidIff(g, part, p);
    }
    if part :| part in parts && |part| >= 20 && IsCentroid(g, part, p) {
      CentroidIff(g, part, p);
      assert part in Large(parts);
    }
  }

  /** Every point that is returned lies over the inner cells of the map. */
  lemma ReturnedInside(g: Grid, p: Point)
    requires g.Valid() && g.resolution > 0.0
    requires p in Centroids(g, Components(FrontierCells(g)))
    ensures InsideMap(g, p)
  {
    hide Components, FrontierCells, Centroids, PointAt, RowSum, ColSum, World;
    var parts := Components(FrontierCells(g));
    PointOfLarge(g, parts, p);
    var part :| part in Large(parts) && p == PointAt(g, RowSum(part), ColSum(part), |part|);
    CentroidInside(g, part);
  }

  lemma PartsInside(g: Grid, part: set<Cell>)
    requires g.Valid() && part in Components(FrontierCells(g))
    ensures part != {} && forall x :: x in part ==> 1 <= x.0 <= g.height - 2 && 1 <= x.1 <= g.width - 2
  {
    var a :| a in FrontierCells(g) && part == Component(FrontierCells(g), a);
    ComponentsCover(FrontierCells(g), a);
  }
}
