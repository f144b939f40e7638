/**
 The options and per-layer state of `L.TileLayer.Plain`: the retina
 adjustment and pyramid construction done by `initialize`, the best-fit zoom
 search, and the reduced size given to tiles in the last column and row.
 */
module TileLayer {

  import opened Wrappers
  import opened Pyramid

  /** The layer's own default for `options.tolerance`. */
  const DefaultTolerance: real := 0.8

  /**
   The layer options the core reads. `width` and `height` are the full image
   size in pixels; `tolerance` scales image sizes in the best-fit test.
   */
  datatype Options = Options(
    width: nat,
    height: nat,
    tileSize: int,
    zoomOffset: int,
    minZoom: int,
    maxZoom: int,
    detectRetina: bool,
    tolerance: real)

  /** The retina adjustment is made only on a retina display, when asked for, with a positive `maxZoom`. */
  predicate RetinaApplies(o: Options, retina: bool) {
    o.detectRetina && retina && o.maxZoom > 0
  }

  function Max(a: int, b: int): int {
    if a >= b then a else b
  }

  /**
   The options after retina detection: the tile size halved (rounding down,
   also for negative values), the zoom offset one higher, the minimum zoom at
   least 0 and the maximum zoom one lower; otherwise the options as given.
   */
  function AdjustForRetina(o: Options, retina: bool): (r: Options)
    ensures RetinaApplies(o, retina) ==>
      && 2 * r.tileSize <= o.tileSize < 2 * r.tileSize + 2
      && r.zoomOffset == o.zoomOffset + 1
      && 0 <= r.minZoom && o.minZoom <= r.minZoom && (r.minZoom == 0 || r.minZoom == o.minZoom)
      && r.maxZoom == o.maxZoom - 1
    ensures !RetinaApplies(o, retina) ==> r == o
    ensures r.width == o.width && r.height == o.height
    ensures r.detectRetina == o.detectRetina && r.tolerance == o.tolerance
  {
    if RetinaApplies(o, retina) then
      o.(tileSize := o.tileSize / 2,
         zoomOffset := o.zoomOffset + 1,
         minZoom := Max(0, o.minZoom),
         maxZoom := o.maxZoom - 1)
    else o
  }

  /** Why a layer could not be set up. */
  datatype InitError =
    /** The (adjusted) tile size is below 1, so the grid arithmetic has nothing to divide by. */
    InvalidTileSize

  /**
   A constructed layer: its URL prefix, its adjusted options, and per zoom
   level (coarsest first) the image size and the tile grid size.
   */
  datatype Layer = Layer(url: string, options: Options, imageSizes: seq<Size>, gridSizes: seq<Size>)

  /** What `initialize` guarantees about every layer it builds. */
  predicate ValidLayer(l: Layer) {
    && l.options.tileSize >= 1
    && IsPyramid(l.imageSizes, Size(l.options.width, l.options.height), l.options.tileSize)
    && l.gridSizes == GridSizes(l.imageSizes, l.options.tileSize)
    && l.options.maxZoom == |l.imageSizes| - 1
  }

  /**
   `initialize`: adjust the options for retina displays, build the pyramid
   from the full image size, and overwrite `maxZoom` with the index of the
   finest level.
   */
  function Initialize(url: string, o: Options, retina: bool): (r: Result<Layer, InitError>)
    ensures r.Failure? <==> AdjustForRetina(o, retina).tileSize < 1
    ensures r.Success? ==> ValidLayer(r.value) && r.value.url == url
    ensures r.Success? ==> r.value.options == AdjustForRetina(o, retina).(maxZoom := |r.value.imageSizes| - 1)
    ensures r.Success? ==> r.value.imageSizes[|r.value.imageSizes| - 1] == Size(o.width, o.height)
  {
    var a := AdjustForRetina(o, retina);
    if a.tileSize < 1 then Failure(InvalidTileSize)
    else
      var sizes := Levels(Size(a.width, a.height), a.tileSize);
      Success(Layer(url, a.(maxZoom := |sizes| - 1), sizes, GridSizes(sizes, a.tileSize)))
  }

  /** Building a layer twice from the same arguments yields the same layer, and any valid layer over the same image is that one. */
  lemma InitializeDetermined(url: string, o: Options, retina: bool, l: Layer)
    requires Initialize(url, o, retina).Success?
    requires ValidLayer(l) && l.url == url && l.options == AdjustForRetina(o, retina).(maxZoom := l.options.maxZoom)
    ensures Initialize(url, o, retina) == Success(l)
  {
    var built := Initialize(url, o, retina).value;
    PyramidUnique(built.imageSizes, l.imageSizes, Size(o.width, o.height), l.options.tileSize);
  }

  /** The best-fit test: the level, scaled by the tolerance, is strictly smaller than the viewport in both directions. */
  predicate FitsViewport(s: Size, view: Size, tolerance: real) {
    (s.x as real) * tolerance < (view.x as real) && (s.y as real) * tolerance < (view.y as real)
  }

  /** Tries levels `zoom`, `zoom - 1`, ... down to 1 and returns the first that fits; level 0 is returned without a comparison. */
  function ScanForFit(sizes: seq<Size>, view: Size, tolerance: real, zoom: nat): (z: nat)
    requires zoom < |sizes|
    ensures z <= zoom
    ensures z > 0 ==> FitsViewport(sizes[z], view, tolerance)
    ensures forall k :: z < k <= zoom ==> !FitsViewport(sizes[k], view, tolerance)
  {
    if zoom == 0 then 0
    else if FitsViewport(sizes[zoom], view, tolerance) then zoom
    else ScanForFit(sizes, view, tolerance, zoom - 1)
  }

  /**
   `_getBestFitZoom`: the finest level that fits the viewport under the
   layer's tolerance, or level 0 when no finer level does.
   */
  function BestFitZoom(l: Layer, view: Size): (z: nat)
    requires |l.imageSizes| >= 1
    ensures z < |l.imageSizes|
    ensures z > 0 ==> FitsViewport(l.imageSizes[z], view, l.options.tolerance)
    ensures forall k :: z < k < |l.imageSizes| ==> !FitsViewport(l.imageSizes[k], view, l.options.tolerance)
  {
    ScanForFit(l.imageSizes, view, l.options.tolerance, |l.imageSizes| - 1)
  }

  /** With a non-negative tolerance, a level that fits makes every coarser level fit. */
  lemma FitsCoarser(l: Layer, view: Size, i: nat, j: nat)
    requires HalvingChain(l.imageSizes) && l.options.tolerance >= 0.0
    requires i <= j < |l.imageSizes|
    requires FitsViewport(l.imageSizes[j], view, l.options.tolerance)
    ensures FitsViewport(l.imageSizes[i], view, l.options.tolerance)
  {
    CoarserIsSmaller(l.imageSizes, i, j);
    FitsSmaller(l.imageSizes[i], l.imageSizes[j], view, l.options.tolerance);
  }

  lemma FitsSmaller(a: Size, b: Size, view: Size, tolerance: real)
    requires a.x <= b.x && a.y <= b.y && tolerance >= 0.0
    requires FitsViewport(b, view, tolerance)
    ensures FitsViewport(a, view, tolerance)
  {
    ScaleMonotone(a.x as real, b.x as real, tolerance);
    ScaleMonotone(a.y as real, b.y as real, tolerance);
  }

  lemma ScaleMonotone(a: real, b: real, c: real)
    requires a <= b && c >= 0.0
    ensures a * c <= b * c
  {
    assert b * c - a * c == (b - a) * c;
  }

  /**
   With a non-negative tolerance, the best-fit zoom splits the levels from 1
   up: exactly those at or below it fit the viewport.
   */
  lemma BestFitIsThreshold(l: Layer, view: Size)
    requires |l.imageSizes| >= 1 && HalvingChain(l.imageSizes) && l.options.tolerance >= 0.0
    ensures forall k :: 1 <= k < |l.imageSizes| ==>
      (FitsViewport(l.imageSizes[k], view, l.options.tolerance) <==> k <= BestFitZoom(l, view))
  {
    var z := BestFitZoom(l, view);
    forall k | 1 <= k <= z
      ensures FitsViewport(l.imageSizes[k], view, l.options.tolerance)
    {
      FitsCoarser(l, view, k, z);
    }
  }

  /** A viewport too small for the coarsest level scaled by the tolerance gets level 0. */
  lemma BestFitCoarsestWhenNothingFits(l: Layer, view: Size)
    requires |l.imageSizes| >= 1 && HalvingChain(l.imageSizes) && l.options.tolerance >= 0.0
    requires !FitsViewport(l.imageSizes[0], view, l.options.tolerance)
    ensures BestFitZoom(l, view) == 0
  {
    var z := BestFitZoom(l, view);
    if z > 0 {
      FitsCoarser(l, view, 0, z);
      assert false;
    }
  }

  /** A viewport at least as large in both directions never gets a coarser best fit. */
  lemma BestFitMonotone(l: Layer, small: Size, large: Size)
    requires |l.imageSizes| >= 1
    requires small.x <= large.x && small.y <= large.y
    ensures BestFitZoom(l, small) <= BestFitZoom(l, large)
  {
    var z := BestFitZoom(l, small);
    if z > BestFitZoom(l, large) {
      assert FitsViewport(l.imageSizes[z], large, l.options.tolerance);
      assert false;
    }
  }

  /**
   What the size override of one axis must achieve for a tile at `coord`
   within a grid of `CeilDiv(size, t)` cells: only the last cell is
   overridden, with an extent in 1..t ending exactly at the image edge; any
   other cell keeps the full tile size and ends before the edge.
   */
  predicate EdgeExtentCorrect(size: nat, t: TileSize, coord: nat, e: Option<int>) {
    && (e.Some? <==> coord == CeilDiv(size, t) - 1)
    && (e.Some? ==> 1 <= e.value <= t && coord * t + e.value == size)
    && (e.None? ==> (coord + 1) * t < size)
  }

  /** The `_addTile` override of one axis: the remainder of the image for the last cell, none elsewhere. */
  function EdgeExtent(size: nat, cells: nat, t: int, coord: nat): (e: Option<int>)
    ensures e.Some? <==> coord + 1 == cells
    ensures e.Some? ==> coord * t + e.value == size
  {
    if coord == cells - 1 then Some(size - t * (cells - 1)) else None
  }

  /** Within the grid, the override computed from the grid size is the one `EdgeExtentCorrect` asks for. */
  lemma EdgeExtentIsCorrect(size: nat, t: TileSize, coord: nat)
    ensures coord < CeilDiv(size, t) ==>
      EdgeExtentCorrect(size, t, coord, EdgeExtent(size, CeilDiv(size, t), t, coord))
  {
    var cells := CeilDiv(size, t);
    CeilDivIsCeiling(size, t);
    if coord < cells {
      assert t * (cells - 1) == (cells - 1) * t;
      assert cells * t == (cells - 1) * t + t;
      if coord < cells - 1 {
        MulMonotone(coord + 1, cells - 1, t);
      }
    }
  }

  lemma MulMonotone(a: int, b: int, t: TileSize)
    requires a <= b
    ensures a * t <= b * t
  {
    assert b * t - a * t == (b - a) * t;
  }

  /** The style overrides `_addTile` gives a tile: `width` and `height` are set only on the last column and row. */
  datatype TileStyle = TileStyle(width: Option<int>, height: Option<int>)

  /**
   The size overrides for the tile at column `x`, row `y` of level `zoom`.
   Every `ValidLayer` meets the requires at each of its levels.
   */
  function StyleTile(l: Layer, zoom: nat, x: nat, y: nat): (r: TileStyle)
    requires l.options.tileSize >= 1 && zoom < |l.imageSizes| && zoom < |l.gridSizes|
    requires l.gridSizes[zoom] == GridSize(l.imageSizes[zoom], l.options.tileSize)
    ensures x < l.gridSizes[zoom].x ==> EdgeExtentCorrect(l.imageSizes[zoom].x, l.options.tileSize, x, r.width)
    ensures y < l.gridSizes[zoom].y ==> EdgeExtentCorrect(l.imageSizes[zoom].y, l.options.tileSize, y, r.height)
  {
    var size, grid, t := l.imageSizes[zoom], l.gridSizes[zoom], l.options.tileSize;
    EdgeExtentIsCorrect(size.x, t, x);
    EdgeExtentIsCorrect(size.y, t, y);
    TileStyle(EdgeExtent(size.x, grid.x, t, x), EdgeExtent(size.y, grid.y, t, y))
  }
}
