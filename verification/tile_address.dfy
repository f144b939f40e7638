/**
 Zoomify tile addressing as done by `_getTileGroup` and `getTileUrl`: tiles
 are numbered level by level from the coarsest, row-major within a level,
 the number is bucketed into groups of 256, and the URL is
 `<base>TileGroup<group>/<zoom>-<x>-<y>.jpg`.
 */
module TileAddress {

  import opened Wrappers
  import opened Pyramid
  import opened TileLayer
  import opened Decimal

  /** Tiles per `TileGroup` directory in the Zoomify layout. */
  const TilesPerGroup: nat := 256

  /** A tile position: zoom level, column and row. */
  datatype Tile = Tile(zoom: nat, x: nat, y: nat)

  /** Tiles on one level with grid `g`. */
  function Count(g: Size): nat {
    g.x * g.y
  }

  /** Tiles on levels `0 .. zoom - 1`, the running sum of the source's loop. */
  function TilesBefore(grids: seq<Size>, zoom: nat): nat
    requires zoom <= |grids|
  {
    if zoom == 0 then 0 else TilesBefore(grids, zoom - 1) + Count(grids[zoom - 1])
  }

  /** True when the tile lies on an existing level and inside that level's grid. */
  predicate InGrid(grids: seq<Size>, t: Tile) {
    t.zoom < |grids| && t.x < grids[t.zoom].x && t.y < grids[t.zoom].y
  }

  /** Lexicographic order on (zoom, row, column): the order in which tiles are numbered. */
  predicate Before(a: Tile, b: Tile) {
    || a.zoom < b.zoom
    || (a.zoom == b.zoom && a.y < b.y)
    || (a.zoom == b.zoom && a.y == b.y && a.x < b.x)
  }

  /**
   The sequential number of a tile: all tiles of coarser levels, then the
   row-major index within its level. An in-grid tile's number lies in the
   block reserved for its level.
   */
  function TileNumber(grids: seq<Size>, t: Tile): (n: nat)
    requires t.zoom < |grids|
    ensures InGrid(grids, t) ==> TilesBefore(grids, t.zoom) <= n < TilesBefore(grids, t.zoom + 1)
  {
    var g := grids[t.zoom];
    RowMajorBelowCount(t.x, t.y, g);
    TilesBefore(grids, t.zoom) + t.y * g.x + t.x
  }

  /** The row-major index of an in-grid cell is below the cell count. */
  lemma RowMajorBelowCount(x: nat, y: nat, g: Size)
    ensures x < g.x && y < g.y ==> y * g.x + x < Count(g)
  {
    if x < g.x && y < g.y {
      assert y * g.x + x < (y + 1) * g.x;
      assert (y + 1) * g.x <= g.y * g.x;
    }
  }

  lemma {:induction false} TilesBeforeMonotone(grids: seq<Size>, i: nat, j: nat)
    requires i <= j <= |grids|
    ensures TilesBefore(grids, i) <= TilesBefore(grids, j)
    decreases j - i
  {
    if i < j {
      TilesBeforeMonotone(grids, i, j - 1);
    }
  }

  /** Numbering follows the order (zoom, row, column) strictly. */
  lemma TileNumberOrdered(grids: seq<Size>, a: Tile, b: Tile)
    requires InGrid(grids, a) && InGrid(grids, b)
    requires Before(a, b)
    ensures TileNumber(grids, a) < TileNumber(grids, b)
  {
    if a.zoom < b.zoom {
      TilesBeforeMonotone(grids, a.zoom + 1, b.zoom);
    } else if a.y < b.y {
      var c := grids[a.zoom].x;
      assert a.y * c + a.x < (a.y + 1) * c;
      assert (a.y + 1) * c <= b.y * c;
    }
  }

  /** Distinct in-grid tiles get distinct numbers. */
  lemma TileNumberInjective(grids: seq<Size>, a: Tile, b: Tile)
    requires InGrid(grids, a) && InGrid(grids, b)
    requires TileNumber(grids, a) == TileNumber(grids, b)
    ensures a == b
  {
    if Before(a, b) {
      TileNumberOrdered(grids, a, b);
    } else if Before(b, a) {
      TileNumberOrdered(grids, b, a);
    }
  }

  /** A column index one past the grid is numbered like the first tile of the next row. */
  lemma OutOfGridCollides(grids: seq<Size>, zoom: nat, y: nat)
    requires zoom < |grids|
    ensures TileNumber(grids, Tile(zoom, grids[zoom].x, y)) == TileNumber(grids, Tile(zoom, 0, y + 1))
  {
    assert y * grids[zoom].x + grids[zoom].x == (y + 1) * grids[zoom].x;
  }

  /** Splits an index below `c * rows` into a row below `rows` and a column below `c`. */
  lemma SplitRowMajor(i: nat, c: nat, rows: nat)
    requires i < c * rows
    ensures c > 0 && i / c < rows && i % c < c && (i / c) * c + i % c == i
  {
    assert c > 0;
  }

  /** The tile numbered `n`, searching levels from `zoom` upward; none when `n` is past the last level. */
  function LocateFrom(grids: seq<Size>, n: nat, zoom: nat): (r: Option<Tile>)
    requires zoom <= |grids| && TilesBefore(grids, zoom) <= n
    ensures r.Some? <==> n < TilesBefore(grids, |grids|)
    ensures r.Some? ==> InGrid(grids, r.value) && TileNumber(grids, r.value) == n
    decreases |grids| - zoom
  {
    if zoom == |grids| then None
    else if n < TilesBefore(grids, zoom + 1) then
      var i := n - TilesBefore(grids, zoom);
      var c := grids[zoom].x;
      SplitRowMajor(i, c, grids[zoom].y);
      TilesBeforeMonotone(grids, zoom + 1, |grids|);
      Some(Tile(zoom, i % c, i / c))
    else LocateFrom(grids, n, zoom + 1)
  }

  /** The tile with sequential number `n`, if the pyramid has that many tiles. */
  function Locate(grids: seq<Size>, n: nat): Option<Tile> {
    LocateFrom(grids, n, 0)
  }

  /** Numbering is a bijection between in-grid tiles and `0 .. total - 1`: locating a tile's number finds the tile. */
  lemma LocateTileNumber(grids: seq<Size>, t: Tile)
    requires InGrid(grids, t)
    ensures Locate(grids, TileNumber(grids, t)) == Some(t)
  {
    var n := TileNumber(grids, t);
    TilesBeforeMonotone(grids, t.zoom + 1, |grids|);
    var found := Locate(grids, n).value;
    TileNumberInjective(grids, found, t);
  }

  /** The group (directory) a tile number falls in: the block of 256 consecutive numbers holding it. */
  function TileGroup(n: nat): (g: nat)
    ensures TilesPerGroup * g <= n < TilesPerGroup * g + TilesPerGroup
  {
    n / TilesPerGroup
  }

  /** Groups never decrease as tile numbers grow. */
  lemma TileGroupMonotone(m: nat, n: nat)
    requires m <= n
    ensures TileGroup(m) <= TileGroup(n)
  {
  }

  /** Tiles later in (zoom, row, column) order never land in an earlier group. */
  lemma TileGroupOrdered(grids: seq<Size>, a: Tile, b: Tile)
    requires InGrid(grids, a) && InGrid(grids, b)
    requires Before(a, b)
    ensures TileGroup(TileNumber(grids, a)) <= TileGroup(TileNumber(grids, b))
  {
    TileNumberOrdered(grids, a, b);
    TileGroupMonotone(TileNumber(grids, a), TileNumber(grids, b));
  }

  /** `_getTileGroup` as written: sum the coarser levels' tile counts in a loop, add the row-major index, divide by 256. */
  method GetTileGroup(l: Layer, zoom: nat, x: nat, y: nat) returns (group: nat)
    requires zoom < |l.gridSizes|
    ensures group == TileGroup(TileNumber(l.gridSizes, Tile(zoom, x, y)))
  {
    var num := 0;
    var z := 0;
    while z < zoom
      invariant z <= zoom
      invariant num == TilesBefore(l.gridSizes, z)
    {
      var gridSize := l.gridSizes[z];
      num := num + gridSize.x * gridSize.y;
      z := z + 1;
    }
    num := num + y * l.gridSizes[zoom].x + x;
    group := num / 256;
  }

  /** The fields of a tile URL. */
  datatype UrlParts = UrlParts(group: nat, zoom: nat, x: nat, y: nat)

  /** `<base>TileGroup<group>/<zoom>-<x>-<y>.jpg`, numbers in decimal. */
  function FormatTileUrl(base: string, p: UrlParts): (url: string)
    ensures base + "TileGroup" <= url
    ensures |url| >= 4 && url[|url| - 4..] == ".jpg"
  {
    base + "TileGroup" + ToDecimal(p.group) + "/" + ToDecimal(p.zoom)
      + "-" + ToDecimal(p.x) + "-" + ToDecimal(p.y) + ".jpg"
  }

  /**
   Reads the fields back from a tile URL under `base`; fails on anything
   not of that shape, leading zeros included. A URL that parses is exactly
   the formatted URL of its fields.
   */
  function ParseTileUrl(base: string, url: string): (r: Option<UrlParts>)
    ensures r.Some? ==> url == FormatTileUrl(base, r.value)
  {
    var head := base + "TileGroup";
    if !(head <= url) then None
    else
      var group :- ReadField(url[|head|..], "/");
      var zoom :- ReadField(group.rest, "-");
      var x :- ReadField(zoom.rest, "-");
      var y :- ReadField(x.rest, ".jpg");
      if y.rest == [] then
        var p := UrlParts(group.value, zoom.value, x.value, y.value);
        JoinFields(base, url, p, url[|head|..], group.rest, zoom.rest, x.rest);
        Some(p)
      else None
  }

  /** Every formatted URL parses back to its fields, so the fields are recoverable from the URL. */
  lemma ParseFormatTileUrl(base: string, p: UrlParts)
    ensures ParseTileUrl(base, FormatTileUrl(base, p)) == Some(p)
  {
    var head := base + "TileGroup";
    var r4 := ToDecimal(p.y) + (".jpg" + []);
    var r3 := ToDecimal(p.x) + ("-" + r4);
    var r2 := ToDecimal(p.zoom) + ("-" + r3);
    var r1 := ToDecimal(p.group) + ("/" + r2);
    var url := FormatTileUrl(base, p);
    FormatTileUrlSplits(base, p);
    assert head <= url && url[|head|..] == r1;
    ReadFieldToDecimal(p.group, "/", r2);
    ReadFieldToDecimal(p.zoom, "-", r3);
    ReadFieldToDecimal(p.x, "-", r4);
    ReadFieldToDecimal(p.y, ".jpg", []);
    ParseFields(base, url, p, r1, r2, r3, r4);
  }

  lemma ParseFields(base: string, url: string, p: UrlParts, r1: string, r2: string, r3: string, r4: string)
    requires base + "TileGroup" <= url && url[|base + "TileGroup"|..] == r1
    requires ReadField(r1, "/") == Some(Scan(p.group, r2))
    requires ReadField(r2, "-") == Some(Scan(p.zoom, r3))
    requires ReadField(r3, "-") == Some(Scan(p.x, r4))
    requires ReadField(r4, ".jpg") == Some(Scan(p.y, []))
    ensures ParseTileUrl(base, url) == Some(p)
  {
  }

  /** Fields read off a URL one after the other join back into the formatted URL. */
  lemma JoinFields(base: string, url: string, p: UrlParts, r1: string, r2: string, r3: string, r4: string)
    requires base + "TileGroup" <= url && r1 == url[|base + "TileGroup"|..]
    requires r1 == ToDecimal(p.group) + "/" + r2
    requires r2 == ToDecimal(p.zoom) + "-" + r3
    requires r3 == ToDecimal(p.x) + "-" + r4
    requires r4 == ToDecimal(p.y) + ".jpg" + []
    ensures url == FormatTileUrl(base, p)
  {
    FormatTileUrlSplits(base, p);
    assert url == (base + "TileGroup") + r1;
  }

  /** The formatted URL regrouped as the fixed head followed by each field and the text after it. */
  lemma FormatTileUrlSplits(base: string, p: UrlParts)
    ensures FormatTileUrl(base, p) == (base + "TileGroup") + (ToDecimal(p.group) + ("/" + (ToDecimal(p.zoom)
      + ("-" + (ToDecimal(p.x) + ("-" + (ToDecimal(p.y) + (".jpg" + []))))))))
  {
    assert ".jpg" + [] == ".jpg";
  }

  /**
   `getTileUrl` for the tile at column `x`, row `y` of the map's current
   level `zoom`: the layer's URL, then the group and coordinates.
   */
  function GetTileUrl(l: Layer, zoom: nat, x: nat, y: nat): (url: string)
    requires zoom < |l.gridSizes|
    ensures l.url <= url
    ensures |url| >= 4 && url[|url| - 4..] == ".jpg"
    ensures ParseTileUrl(l.url, url) == Some(UrlParts(TileGroup(TileNumber(l.gridSizes, Tile(zoom, x, y))), zoom, x, y))
  {
    var p := UrlParts(TileGroup(TileNumber(l.gridSizes, Tile(zoom, x, y))), zoom, x, y);
    ParseFormatTileUrl(l.url, p);
    FormatTileUrl(l.url, p)
  }

  /** Distinct in-grid tiles of a layer are fetched from distinct URLs. */
  lemma TileUrlInjective(l: Layer, a: Tile, b: Tile)
    requires a.zoom < |l.gridSizes| && b.zoom < |l.gridSizes|
    ensures GetTileUrl(l, a.zoom, a.x, a.y) == GetTileUrl(l, b.zoom, b.x, b.y) ==> a == b
  {
  }
}
