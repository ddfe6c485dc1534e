/** Bounding boxes from a segmentation image, in which the colour of a pixel encodes the handle of the
    object seen there. */
module ImageScan {
  import Grids
  import opened RealMath

  newtype byte = x: int | 0 <= x < 256

  /** Image coordinates are stored in 16 bits. */
  function Narrow16(n: nat): nat {
    n % 0x1_0000
  }

  /** The root handle of an object is narrowed to 8 bits. */
  function Narrow8(n: int): nat {
    n % 0x100
  }

  datatype ImageRect = ImageRect(minI: nat, maxI: nat, minJ: nat, maxJ: nat) {
    function Update(i: nat, j: nat): ImageRect {
      ImageRect(if i < minI then i else minI, if maxI < i then i else maxI,
                if j < minJ then j else minJ, if maxJ < j then j else maxJ)
    }
  }

  datatype Scene = Scene(classOf: map<int, nat>, rootOf: map<int, int>) {
    /** Every object with a vision class has a root. */
    ghost predicate Valid() {
      classOf.Keys <= rootOf.Keys
    }
  }

  /** Is class `k` selected by an 8-bit mask? */
  predicate Selected(mask: bv8, k: nat) {
    k < 8 && mask & ((1 as bv8) << k) != 0
  }

  // ----- Pixels

  function Handle(buffer: seq<byte>, p: nat): int
    requires 3 * p + 2 < |buffer|
  {
    buffer[3 * p] as int + buffer[3 * p + 1] as int * 0x100 + buffer[3 * p + 2] as int * 0x1_0000
  }

  /** Three bytes hold a number below 2^24, the lowest first. */
  lemma HandleBytes(buffer: seq<byte>, p: nat)
    requires 3 * p + 2 < |buffer|
    ensures var h := Handle(buffer, p);
            && 0 <= h < 0x100_0000
            && buffer[3 * p] as int == h % 0x100
            && buffer[3 * p + 1] as int == h / 0x100 % 0x100
            && buffer[3 * p + 2] as int == h / 0x1_0000
  {
  }

  /** Narrowing keeps the lowest 8 or 16 bits. */
  lemma Narrowed(n: int, m: nat)
    ensures 0 <= Narrow8(n) < 256 && exists k: int :: n == Narrow8(n) + k * 256
    ensures 0 <= Narrow16(m) < 65536 && exists k: int :: m == Narrow16(m) + k * 65536
  {
    assert n == Narrow8(n) + (n / 256) * 256;
    assert m == Narrow16(m) + (m / 65536) * 65536;
  }

  /** The lowest bit of a mask selects class 0, the highest class 7. */
  lemma SelectedBits(mask: bv8)
    ensures (Selected(mask, 0) <==> mask & 0x01 != 0) && (Selected(mask, 1) <==> mask & 0x02 != 0)
    ensures (Selected(mask, 2) <==> mask & 0x04 != 0) && (Selected(mask, 3) <==> mask & 0x08 != 0)
    ensures (Selected(mask, 4) <==> mask & 0x10 != 0) && (Selected(mask, 5) <==> mask & 0x20 != 0)
    ensures (Selected(mask, 6) <==> mask & 0x40 != 0) && (Selected(mask, 7) <==> mask & 0x80 != 0)
    ensures forall k: nat :: k >= 8 ==> !Selected(mask, k)
  {
  }

  predicate ImageValid(buffer: seq<byte>, width: nat, height: nat) {
    |buffer| == 3 * (height * width)
  }

  function HandleAt(buffer: seq<byte>, width: nat, height: nat, i: nat, j: nat): int
    requires ImageValid(buffer, width, height) && i < height && j < width
  {
    Grids.RowMajor(i, j, width, height);
    Handle(buffer, i * width + j)
  }

  type Pixel = (int, int)

  ghost predicate Scanned(p: Pixel, i: int, j: int) {
    p.0 < i || (p.0 == i && p.1 < j)
  }

  datatype Image = Image(buffer: seq<byte>, width: nat, height: nat) {
    ghost predicate Valid() {
      ImageValid(buffer, width, height)
    }

    function At(i: nat, j: nat): int
      requires ImageValid(buffer, width, height) && i < height && j < width
    {
      HandleAt(buffer, width, height, i, j)
    }
  }

  /** Pixel `p` shows an object of class `k` whose narrowed root is `r`. */
  ghost predicate Shows(scene: Scene, image: Image, p: Pixel, k: nat, r: nat)
    requires scene.Valid() && image.Valid()
  {
    && 0 <= p.0 < image.height && 0 <= p.1 < image.width
    && var handle := image.At(p.0, p.1);
       handle in scene.classOf && scene.classOf[handle] == k && Narrow8(scene.rootOf[handle]) == r
  }

  /** The pixels scanned before position (i, j) that show class `k` and narrowed root `r`. */
  ghost function Seen(scene: Scene, image: Image, k: nat, r: nat, i: int, j: int): set<Pixel>
    requires scene.Valid() && image.Valid()
  {
    set a, b | 0 <= a < image.height && 0 <= b < image.width && Scanned((a, b), i, j)
        && Shows(scene, image, (a, b), k, r)
      :: (a, b)
  }

  // ----- Tight rectangles

  ghost predicate Contains(rect: ImageRect, p: Pixel)
    requires p.0 >= 0 && p.1 >= 0
  {
    rect.minI <= Narrow16(p.0) <= rect.maxI && rect.minJ <= Narrow16(p.1) <= rect.maxJ
  }

  /** The smallest rectangle around a set of pixels: it contains all of them and each side is touched. */
  ghost predicate Tight(rect: ImageRect, pixels: set<Pixel>) {
    && (forall p :: p in pixels ==> p.0 >= 0 && p.1 >= 0 && Contains(rect, p))
    && (exists p :: p in pixels && Narrow16(p.0) == rect.minI)
    && (exists p :: p in pixels && Narrow16(p.0) == rect.maxI)
    && (exists p :: p in pixels && Narrow16(p.1) == rect.minJ)
    && (exists p :: p in pixels && Narrow16(p.1) == rect.maxJ)
  }

  lemma TightUnique(a: ImageRect, b: ImageRect, pixels: set<Pixel>)
    requires Tight(a, pixels) && Tight(b, pixels)
    ensures a == b
  {
  }

  lemma TightSingle(i: nat, j: nat)
    ensures Tight(ImageRect(Narrow16(i), Narrow16(i), Narrow16(j), Narrow16(j)), {(i, j)})
  {
    assert (i, j) in {(i, j)};
  }

  lemma TightUpdate(rect: ImageRect, pixels: set<Pixel>, i: nat, j: nat)
    requires Tight(rect, pixels)
    ensures Tight(rect.Update(Narrow16(i), Narrow16(j)), pixels + {(i, j)})
  {
    hide Narrow16;
    var wider := rect.Update(Narrow16(i), Narrow16(j));
    var all := pixels + {(i, j)};
    assert (i, j) in all;
    var a :| a in pixels && Narrow16(a.0) == rect.minI;
    var b :| b in pixels && Narrow16(b.0) == rect.maxI;
    var c :| c in pixels && Narrow16(c.1) == rect.minJ;
    var d :| d in pixels && Narrow16(d.1) == rect.maxJ;
    assert a in all && b in all && c in all && d in all;
  }

  // ----- The scan

  type Rects = map<nat, map<nat, ImageRect>>

  /** The rectangles of everything scanned so far. */
  ghost predicate Exact(scene: Scene, image: Image, mask: bv8, rects: Rects, i: int, j: int)
    requires scene.Valid() && image.Valid()
  {
    && (forall k: nat :: k in rects <==> Selected(mask, k))
    && (forall k: nat, r: nat :: k in rects ==>
          && (r in rects[k] <==> Seen(scene, image, k, r, i, j) != {})
          && (r in rects[k] ==> Tight(rects[k][r], Seen(scene, image, k, r, i, j))))
  }

  lemma SeenNext(scene: Scene, image: Image, k: nat, r: nat, i: nat, j: nat)
    requires scene.Valid() && image.Valid() && i < image.height && j < image.width
    ensures Seen(scene, image, k, r, i, j + 1) ==
            Seen(scene, image, k, r, i, j) + (if Shows(scene, image, (i, j), k, r) then {(i, j)} else {})
    ensures (i, j) !in Seen(scene, image, k, r, i, j)
  {
    hide Shows;
  }

  lemma SeenRow(scene: Scene, image: Image, k: nat, r: nat, i: nat)
    requires scene.Valid() && image.Valid()
    ensures Seen(scene, image, k, r, i, image.width) == Seen(scene, image, k, r, i + 1, 0)
  {
    hide Shows;
  }

  /** What the scan does with one pixel. */
  function Record(scene: Scene, mask: bv8, rects: Rects, handle: int, i: nat, j: nat): Rects
    requires handle in scene.classOf ==> handle in scene.rootOf
    requires handle in scene.classOf && Selected(mask, scene.classOf[handle]) ==> scene.classOf[handle] in rects
  {
    if handle in scene.classOf && Selected(mask, scene.classOf[handle]) then
      var k: nat := scene.classOf[handle];
      var r: nat := Narrow8(scene.rootOf[handle]);
      var rect := if r in rects[k] then rects[k][r].Update(Narrow16(i), Narrow16(j))
                  else ImageRect(Narrow16(i), Narrow16(i), Narrow16(j), Narrow16(j));
      var row: map<nat, ImageRect> := rects[k][r := rect];
      rects[k := row]
    else rects
  }

  lemma RecordExact(scene: Scene, image: Image, mask: bv8, rects: Rects, i: nat, j: nat)
    requires scene.Valid() && image.Valid() && i < image.height && j < image.width
    requires Exact(scene, image, mask, rects, i, j)
    ensures Exact(scene, image, mask, Record(scene, mask, rects, image.At(i, j), i, j), i, j + 1)
  {
    hide Selected, Seen, Tight, HandleAt, Narrow8, Narrow16;
    var handle := image.At(i, j);
    var next := Record(scene, mask, rects, handle, i, j);
    forall k: nat, r: nat | k in next
      ensures r in next[k] <==> Seen(scene, image, k, r, i, j + 1) != {}
      ensures r in next[k] ==> Tight(next[k][r], Seen(scene, image, k, r, i, j + 1))
    {
      SeenNext(scene, image, k, r, i, j);
      if Shows(scene, image, (i, j), k, r) {
        if r in rects[k] {
          TightUpdate(rects[k][r], Seen(scene, image, k, r, i, j), i, j);
        } else {
          TightSingle(i, j);
          assert Seen(scene, image, k, r, i, j + 1) == {(i, j)};
        }
      } else {
        assert Seen(scene, image, k, r, i, j + 1) == Seen(scene, image, k, r, i, j);
      }
    }
  }

  lemma RowExact(scene: Scene, image: Image, mask: bv8, rects: Rects, i: nat)
    requires scene.Valid() && image.Valid()
    requires Exact(scene, image, mask, rects, i, image.width)
    ensures Exact(scene, image, mask, rects, i + 1, 0)
  {
    hide Selected, Seen, Tight;
    forall k: nat, r: nat | k in rects
      ensures Seen(scene, image, k, r, i, image.width) == Seen(scene, image, k, r, i + 1, 0)
    {
      SeenRow(scene, image, k, r, i);
    }
  }

  lemma StartExact(scene: Scene, image: Image, mask: bv8, rects: Rects)
    requires scene.Valid() && image.Valid()
    requires forall k: nat :: k in rects <==> Selected(mask, k)
    requires forall k: nat :: k in rects ==> rects[k] == map[]
    ensures Exact(scene, image, mask, rects, 0, 0)
  {
    hide Selected;
    forall k: nat, r: nat
      ensures Seen(scene, image, k, r, 0, 0) == {}
    {
    }
  }

  method ScanRects(scene: Scene, image: Image, mask: bv8) returns (rects: Rects)
    requires scene.Valid() && image.Valid()
    ensures Exact(scene, image, mask, rects, image.height, 0)
  {
    hide Exact, Selected, Narrow8, Narrow16, HandleAt;
    rects := map[];
    for k := 0 to 8
      invariant forall c: nat :: c in rects <==> c < k && Selected(mask, c)
      invariant forall c: nat :: c in rects ==> rects[c] == map[]
    {
      if mask & ((1 as bv8) << k) != 0 {
        rects := rects[k := map[]];
      }
      SelectedBit(mask, k);
    }
    SelectedBelow8(mask);
    StartExact(scene, image, mask, rects);
    var p := 0;
    for i := 0 to image.height
      invariant p == 3 * (i * image.width)
      invariant Exact(scene, image, mask, rects, i, 0)
    {
      for j := 0 to image.width
        invariant p == 3 * (i * image.width + j)
        invariant Exact(scene, image, mask, rects, i, j)
      {
        Grids.RowMajor(i, j, image.width, image.height);
        RecordExact(scene, image, mask, rects, i, j);
        var handle := image.buffer[p] as int + image.buffer[p + 1] as int * 0x100
                      + image.buffer[p + 2] as int * 0x1_0000;
        HandleFound(image, i, j, p);
        ExactKeys(scene, image, mask, rects, i, j);
        rects := Record(scene, mask, rects, handle, i, j);
        p := p + 3;
      }
      RowExact(scene, image, mask, rects, i);
    }
  }

  lemma HandleFound(image: Image, i: nat, j: nat, p: nat)
    requires image.Valid() && i < image.height && j < image.width && p == 3 * (i * image.width + j)
    ensures p + 2 < |image.buffer|
    ensures image.At(i, j) ==
            image.buffer[p] as int + image.buffer[p + 1] as int * 0x100 + image.buffer[p + 2] as int * 0x1_0000
  {
    Grids.RowMajor(i, j, image.width, image.height);
  }

  lemma ExactKeys(scene: Scene, image: Image, mask: bv8, rects: Rects, i: int, j: int)
    requires scene.Valid() && image.Valid() && Exact(scene, image, mask, rects, i, j)
    ensures forall k: nat :: k in rects <==> Selected(mask, k)
  {
  }

  lemma SelectedBit(mask: bv8, k: nat)
    requires k < 8
    ensures Selected(mask, k) <==> mask & ((1 as bv8) << k) != 0
  {
  }

  lemma SelectedBelow8(mask: bv8)
    ensures forall k: nat :: Selected(mask, k) ==> k < 8
  {
  }

  // ----- One entry per object

  /** The pixels of the whole image that show class `k` and root `root`, not narrowed. */
  ghost function PixelsOf(scene: Scene, image: Image, k: nat, root: int): set<Pixel>
    requires scene.Valid() && image.Valid()
  {
    set a, b | 0 <= a < image.height && 0 <= b < image.width && ShowsRoot(scene, image, (a, b), k, root) :: (a, b)
  }

  ghost predicate ShowsRoot(scene: Scene, image: Image, p: Pixel, k: nat, root: int)
    requires scene.Valid() && image.Valid()
  {
    && 0 <= p.0 < image.height && 0 <= p.1 < image.width
    && var handle := image.At(p.0, p.1);
       handle in scene.classOf && scene.classOf[handle] == k && scene.rootOf[handle] == root
  }

  /** What a caller would like: an entry for every visible root of a selected class, and only for
      those, with the smallest rectangle around that root's own pixels. */
  ghost predicate PerRoot(scene: Scene, image: Image, rects: Rects)
    requires scene.Valid() && image.Valid()
  {
    forall k: nat, root: int :: k in rects ==>
      && (PixelsOf(scene, image, k, root) != {} ==> root >= 0 && root in rects[k])
      && (root >= 0 && root in rects[k] ==> Tight(rects[k][root], PixelsOf(scene, image, k, root)))
  }

  /** Every visible root of a selected class survives the narrowing to 8 bits. */
  ghost predicate RootsFit(scene: Scene, image: Image, mask: bv8)
    requires scene.Valid() && image.Valid()
  {
    forall k: nat, root: int :: Selected(mask, k) && PixelsOf(scene, image, k, root) != {} ==> 0 <= root < 0x100
  }

  /** The scan has one entry per visible root exactly when all visible roots are below 256. */
  lemma PerRootIff(scene: Scene, image: Image, mask: bv8, rects: Rects)
    requires scene.Valid() && image.Valid()
    requires Exact(scene, image, mask, rects, image.height, 0)
    ensures PerRoot(scene, image, rects) <==> RootsFit(scene, image, mask)
  {
    hide Selected, Tight, HandleAt;
    if PerRoot(scene, image, rects) {
      forall k: nat, root: int | Selected(mask, k) && PixelsOf(scene, image, k, root) != {}
        ensures 0 <= root < 0x100
      {
        KeysNarrow(scene, image, mask, rects, k, root);
      }
    }
    if RootsFit(scene, image, mask) {
      forall k: nat, root: int | k in rects
        ensures PixelsOf(scene, image, k, root) != {} ==> root >= 0 && root in rects[k]
        ensures root >= 0 && root in rects[k] ==> Tight(rects[k][root], PixelsOf(scene, image, k, root))
      {
        if 0 <= root {
          SeenIsPixels(scene, image, mask, k, root);
        }
      }
    }
  }

  lemma KeysNarrow(scene: Scene, image: Image, mask: bv8, rects: Rects, k: nat, root: int)
    requires scene.Valid() && image.Valid() && Exact(scene, image, mask, rects, image.height, 0)
    requires k in rects
    ensures root >= 0 && root in rects[k] ==> root < 0x100
  {
    hide Selected, Tight, HandleAt;
    if root >= 0 && root in rects[k] {
      var p :| p in Seen(scene, image, k, root, image.height, 0);
      assert Shows(scene, image, p, k, root);
    }
  }

  lemma SeenIsPixels(scene: Scene, image: Image, mask: bv8, k: nat, root: nat)
    requires scene.Valid() && image.Valid() && RootsFit(scene, image, mask) && Selected(mask, k)
    ensures Seen(scene, image, k, root, image.height, 0) == PixelsOf(scene, image, k, root)
  {
    hide Selected, HandleAt;
    var seen, pixels := Seen(scene, image, k, root, image.height, 0), PixelsOf(scene, image, k, root);
    forall p | p in seen
      ensures p in pixels
    {
      var own := scene.rootOf[image.At(p.0, p.1)];
      assert p in PixelsOf(scene, image, k, own);
    }
    forall p | p in pixels
      ensures p in seen
    {
      assert 0 <= root < 0x100;
    }
  }

  /** Two objects whose roots agree in the low byte share one entry, around both. */
  lemma RootsMerge() returns (scene: Scene, image: Image, mask: bv8)
    ensures scene.Valid() && image.Valid() && !RootsFit(scene, image, mask)
    ensures Seen(scene, image, 0, 1, image.height, 0) == PixelsOf(scene, image, 0, 1) + PixelsOf(scene, image, 0, 257)
    ensures PixelsOf(scene, image, 0, 1) != {} && PixelsOf(scene, image, 0, 257) != {}
  {
    scene := Scene(map[1 := 0, 2 := 0], map[1 := 1, 2 := 257]);
    image := Image([1, 0, 0, 2, 0, 0], 2, 1);
    mask := 1;
    assert image.At(0, 0) == 1 && image.At(0, 1) == 2;
    assert ShowsRoot(scene, image, (0, 0), 0, 1) && ShowsRoot(scene, image, (0, 1), 0, 257);
    assert (0, 0) in PixelsOf(scene, image, 0, 1) && (0, 1) in PixelsOf(scene, image, 0, 257);
    assert Selected(mask, 0);
    var seen := Seen(scene, image, 0, 1, image.height, 0);
    var both := PixelsOf(scene, image, 0, 1) + PixelsOf(scene, image, 0, 257);
    forall p: Pixel
      ensures p in seen <==> p in both
    {
      if p.0 == 0 && 0 <= p.1 < 2 {
        assert p.1 == 0 || p.1 == 1;
      }
    }
    assert seen == both;
  }

  // ----- Normalized boxes

  /** Centre and size as fractions of the image, the vertical axis pointing up. */
  datatype BoundingBox = BoundingBox(x: real, y: real, width: real, height: real)

  function BoxOf(rect: ImageRect, width: nat, height: nat): BoundingBox
    requires width > 0 && height > 0
  {
    BoundingBox((rect.maxJ + rect.minJ) as real / width as real * 0.5,
                1.0 - (rect.maxI + rect.minI) as real / height as real * 0.5,
                (rect.maxJ - rect.minJ + 1) as real / width as real,
                (rect.maxI - rect.minI + 1) as real / height as real)
  }

  /** The box is that of the smallest rectangle around the pixels. */
  ghost predicate BoxAround(box: BoundingBox, pixels: set<Pixel>, width: nat, height: nat)
    requires width > 0 && height > 0
  {
    exists rect :: Tight(rect, pixels) && box == BoxOf(rect, width, height)
  }

  method DetectBoundingBoxes(scene: Scene, image: Image, mask: bv8) returns (boxes: map<nat, map<nat, BoundingBox>>)
    requires scene.Valid() && image.Valid()
    requires 0 < image.width < 0x1_0000 && 0 < image.height < 0x1_0000
    ensures forall k: nat :: k in boxes <==> Selected(mask, k)
    ensures forall k: nat, r: nat :: k in boxes ==> (r in boxes[k] <==> Seen(scene, image, k, r, image.height, 0) != {})
    ensures forall k: nat, r: nat :: k in boxes && r in boxes[k] ==>
              BoxAround(boxes[k][r], Seen(scene, image, k, r, image.height, 0), image.width, image.height)
  {
    hide Seen, Tight, Selected, BoxOf;
    var rects := ScanRects(scene, image, mask);
    boxes := map k: nat | k in rects :: map r: nat | r in rects[k] :: BoxOf(rects[k][r], image.width, image.height);
    forall k: nat, r: nat | k in boxes && r in boxes[k]
      ensures BoxAround(boxes[k][r], Seen(scene, image, k, r, image.height, 0), image.width, image.height)
    {
      assert Tight(rects[k][r], Seen(scene, image, k, r, image.height, 0));
    }
  }

  /** The corners of a box, in units of pixels: it has the size of the tight pixel rectangle but sits
      half a pixel further left and up. */
  lemma BoxCorners(rect: ImageRect, width: nat, height: nat)
    requires width > 0 && height > 0
    ensures var box := BoxOf(rect, width, height);
            && (box.x - box.width / 2.0) * width as real == rect.minJ as real - 0.5
            && (box.x + box.width / 2.0) * width as real == rect.maxJ as real + 0.5
            && (1.0 - box.y - box.height / 2.0) * height as real == rect.minI as real - 0.5
            && (1.0 - box.y + box.height / 2.0) * height as real == rect.maxI as real + 0.5
  {
    HalfSumHalfDifference(rect.minJ, rect.maxJ, width);
    HalfSumHalfDifference(rect.minI, rect.maxI, height);
  }

  lemma HalfSumHalfDifference(lo: nat, hi: nat, size: nat)
    requires size > 0
    ensures var centre := (hi + lo) as real / size as real * 0.5;
            var extent := (hi - lo + 1) as real / size as real;
            && (centre - extent / 2.0) * size as real == lo as real - 0.5
            && (centre + extent / 2.0) * size as real == hi as real + 0.5
  {
    var sum, difference, n := (hi + lo) as real, (hi - lo + 1) as real, size as real;
    QuotientTimes(sum, n);
    QuotientTimes(difference, n);
    Corners(sum / n, difference / n, n, lo as real, hi as real);
  }

  lemma Corners(p: real, q: real, n: real, lo: real, hi: real)
    requires p * n == hi + lo && q * n == hi - lo + 1.0
    ensures (p * 0.5 - q / 2.0) * n == lo - 0.5
    ensures (p * 0.5 + q / 2.0) * n == hi + 0.5
  {
    assert (p * 0.5 - q / 2.0) * n == (p * n - q * n) * 0.5;
    assert (p * 0.5 + q / 2.0) * n == (p * n + q * n) * 0.5;
  }

  /** Hence a box stays inside the image exactly when its object touches neither the first column nor
      the first row. */
  lemma BoxInsideIff(rect: ImageRect, width: nat, height: nat)
    requires rect.minI <= rect.maxI < height && rect.minJ <= rect.maxJ < width
    ensures var box := BoxOf(rect, width, height);
            (&& 0.0 <= box.x - box.width / 2.0 && box.x + box.width / 2.0 <= 1.0
             && 0.0 <= box.y - box.height / 2.0 && box.y + box.height / 2.0 <= 1.0)
            <==> rect.minI > 0 && rect.minJ > 0
  {
    hide BoxOf;
    var box := BoxOf(rect, width, height);
    BoxCorners(rect, width, height);
    EdgesInside(box.x - box.width / 2.0, box.x + box.width / 2.0, width, rect.minJ, rect.maxJ);
    EdgesInside(1.0 - box.y - box.height / 2.0, 1.0 - box.y + box.height / 2.0, height, rect.minI, rect.maxI);
  }

  /** The box of an object that fills a one-pixel image hangs over its left and upper edge. */
  lemma BoxOverEdge()
    ensures BoxOf(ImageRect(0, 0, 0, 0), 1, 1) == BoundingBox(0.0, 1.0, 1.0, 1.0)
  {
  }

  lemma EdgesInside(lower: real, upper: real, size: nat, lo: nat, hi: nat)
    requires hi < size
    requires lower * size as real == lo as real - 0.5 && upper * size as real == hi as real + 0.5
    ensures lower >= 0.0 <==> lo > 0
    ensures upper <= 1.0
  {
    var n := size as real;
    FactorCompare(lower, lower * n, n, 0.0);
    FactorCompare(upper, upper * n, n, 1.0);
  }
}
