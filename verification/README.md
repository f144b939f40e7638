# Tile-pyramid addressing of Leaflet.FacsimileViewer

A Dafny model of the tile layer `L.TileLayer.Plain` of Leaflet.FacsimileViewer,
which shows a large scanned page as a Zoomify-style tile pyramid. The model
covers the integer arithmetic that decides which tiles exist and where each
is fetched from:

- **Retina adjustment** (`TileLayer.AdjustForRetina`). On a retina display,
  when `detectRetina` is set and `maxZoom > 0`, the tile size is halved
  (rounding down), `zoomOffset` goes up by one, `minZoom` is raised to at
  least 0 and `maxZoom` goes down by one.
- **Pyramid construction** (`Pyramid.Levels`, `Pyramid.BuildLevels`,
  `TileLayer.Initialize`). The full image size is halved with floor until it
  fits in one tile. The list is reversed so that level 0 is the coarsest.
  Each level gets a tile grid of `ceil(size / tileSize)` in each direction.
  `maxZoom` is then overwritten with the index of the finest level.
- **Best-fit zoom** (`TileLayer.BestFitZoom`). Levels are scanned from the
  finest down. The first level whose size times the tolerance is strictly
  smaller than the viewport in both directions is chosen. Level 0 is
  returned without being compared with the viewport.
- **Edge tiles** (`TileLayer.StyleTile`). Tiles in the last column and the
  last row get a reduced width and height, so that the grid ends exactly at
  the image edge.
- **Tile numbering and URLs** (`TileAddress`). A tile's number is the count
  of tiles on all coarser levels plus its row-major index in its own level.
  The number divided by 256 is the tile group. The URL is
  `<base>TileGroup<group>/<zoom>-<x>-<y>.jpg`.

Modules: `Wrappers` (Option/Result), `Decimal` (the decimal rendering that
JavaScript's string concatenation gives a non-negative integer, and a digit
reader for canonical decimal, used to state that
the URL format is exact), `Pyramid`, `TileLayer`, `TileAddress`, and
`Examples` (a 4096 x 3072 scan, worked out).

Inputs the original reads from its environment are parameters here. The
map's current zoom (`this._map.getZoom()`) is the `zoom` argument. The
browser's retina flag (`L.Browser.retina`) is the `retina` argument. The
viewport size (`map.getSize()`) is the `view` argument.

Where the design description and the code differ, the model follows the code:

- The code does not reject a width or height of 0. Such a level has a grid
  with 0 columns or rows, and the model allows it too. Dimensions are `nat`.
- Out-of-grid tile coordinates are not rejected: `_getTileGroup` numbers
  them anyway. `TileNumber` is defined for every column and row. Its range
  and order facts are stated for in-grid tiles, and
  `TileAddress.OutOfGridCollides` shows the collision at column `cols`.
- `getTileUrl` uses the map's zoom for both the group and the path. It
  ignores `zoomOffset` and the coordinates' own `z`, and so does the model.

The model departs from the code in one place, the tile size left by the
retina adjustment; "## Left out" says how, on its `TileLayer.Initialize`
line.

## Model

| member | source | states |
|---|---|---|
| `TileLayer.AdjustForRetina` | leaflet.facsimileViewer.js:31-37 | only when detectRetina, the retina flag and maxZoom > 0 all hold: tile size becomes the floor of half (also for negative sizes), zoomOffset + 1, minZoom = max(0, minZoom), maxZoom − 1; otherwise the options are unchanged |
| `TileLayer.Initialize` | leaflet.facsimileViewer.js:24-69 | fails exactly when the adjusted tile size is below 1; otherwise the layer is a valid pyramid whose finest level is the configured width × height, with a grid per level, and maxZoom is overwritten with the number of levels − 1, whatever the retina step left in it |
| `TileLayer.InitializeDetermined` | leaflet.facsimileViewer.js:49-65 | a layer is determined by its inputs: any valid layer with the same URL and adjusted options is the one `initialize` builds |
| `Pyramid.Halvings` | leaflet.facsimileViewer.js:52-59 | the list the loop pushes starts with the full size; each entry exceeds the tile size and is followed by its floor-half; the last entry fits in one tile |
| `Pyramid.Levels` | leaflet.facsimileViewer.js:49-63 | after the reverse: the last level is the input size, level k is level k+1 halved with floor, level 0 fits in one tile, every level ≥ 1 exceeds it, and there is exactly one level iff the image already fits |
| `Pyramid.BuildLevels` | leaflet.facsimileViewer.js:49-63 | the push-while-exceeding loop followed by the two reverses yields exactly `Levels` and the grid of each of its levels, index for index |
| `Pyramid.PyramidUnique` | leaflet.facsimileViewer.js:55-62 | two sequences with the pyramid properties over the same image and tile size are equal |
| `Pyramid.LevelsCharacterized` | leaflet.facsimileViewer.js:55-62 | any sequence with the pyramid properties is `Levels` of that image |
| `Pyramid.CoarserIsSmaller` | leaflet.facsimileViewer.js:56 | along the halving chain a coarser level is never larger than a finer one in either direction |
| `Pyramid.CeilDiv` | leaflet.facsimileViewer.js:97 | `Math.ceil(n / tileSize)` in integer arithmetic, (n + t − 1) div t; no contract of its own, its meaning is stated by `Pyramid.CeilDivIsCeiling` |
| `Pyramid.CeilDivIsCeiling` | leaflet.facsimileViewer.js:97 | the grid count c for n pixels satisfies (c − 1)·t < n ≤ c·t, so it is the least tile count covering n (0 for n = 0) |
| `Pyramid.GridSize` | leaflet.facsimileViewer.js:95-98 | `_getGridSize`: the ceiling of the level's width and height over the tile size; no contract of its own, its meaning is stated by `Pyramid.GridSizeCovers` |
| `Pyramid.GridSizeCovers` | leaflet.facsimileViewer.js:95-98 | columns and rows are each the fewest tiles covering the level's width and height |
| `TileLayer.ScanForFit` | leaflet.facsimileViewer.js:108-115 | scanning down from a level returns one at or below it; a non-zero result fits; no level above the result, up to the start, fits |
| `TileLayer.BestFitZoom` | leaflet.facsimileViewer.js:101-116 | result in 0..maxZoom; a result z > 0 has size·tolerance < viewport in both directions; no finer level fits; level 0 is returned with no fit promise |
| `TileLayer.FitsCoarser` | leaflet.facsimileViewer.js:110 | with tolerance ≥ 0, if a level fits the viewport, every coarser level fits |
| `TileLayer.BestFitIsThreshold` | leaflet.facsimileViewer.js:101-116 | with tolerance ≥ 0, a level k ≥ 1 fits iff k ≤ the best-fit zoom |
| `TileLayer.BestFitCoarsestWhenNothingFits` | leaflet.facsimileViewer.js:108-115 | with tolerance ≥ 0, a viewport the coarsest level does not fit gets level 0 |
| `TileLayer.BestFitMonotone` | leaflet.facsimileViewer.js:101-116 | a viewport at least as large in both directions never gets a coarser best fit |
| `TileLayer.EdgeExtent` | leaflet.facsimileViewer.js:142-148 | the override for one axis is present exactly on the last cell of the grid, and there it makes that cell end at the image edge (coord · t + extent = size) |
| `TileLayer.EdgeExtentIsCorrect` | leaflet.facsimileViewer.js:142-148 | within the grid, only the last cell gets an override; it lies in 1..tileSize and ends exactly at the image edge; any other cell's full tile ends before the edge |
| `TileLayer.StyleTile` | leaflet.facsimileViewer.js:137-148 | the width and height overrides `_addTile` gives an in-grid tile are those described for `EdgeExtentIsCorrect`, on the map's current level |
| `TileAddress.TilesBefore` | leaflet.facsimileViewer.js:191-194 | the value of `num` after the loop over the levels below `zoom`: the sum of their column × row counts; no contract of its own, its order facts are `TileAddress.TilesBeforeMonotone` and `TileAddress.TileNumberOrdered` |
| `TileAddress.TileNumber` | leaflet.facsimileViewer.js:185-196 | an in-grid tile's number lies in [tiles before its level, tiles up to and including its level) |
| `TileAddress.TileNumberOrdered` | leaflet.facsimileViewer.js:191-196 | tile numbers strictly increase in (zoom, row, column) order |
| `TileAddress.TileNumberInjective` | leaflet.facsimileViewer.js:191-196 | distinct in-grid tiles get distinct numbers |
| `TileAddress.LocateFrom` | leaflet.facsimileViewer.js:191-196 | the inverse search finds a tile exactly when the number is below the pyramid's total; the tile found is in the grid and has that number |
| `TileAddress.LocateTileNumber` | leaflet.facsimileViewer.js:191-196 | locating an in-grid tile's number gives back that tile, so numbering is a bijection onto 0..total − 1 |
| `TileAddress.OutOfGridCollides` | leaflet.facsimileViewer.js:196 | the unchecked column `cols` of row y is numbered like column 0 of row y + 1 |
| `TileAddress.TileGroup` | leaflet.facsimileViewer.js:197 | the group g of number n is the block of 256 holding it: 256·g ≤ n < 256·g + 256 |
| `TileAddress.TileGroupMonotone` | leaflet.facsimileViewer.js:197 | groups never decrease as numbers grow |
| `TileAddress.TileGroupOrdered` | leaflet.facsimileViewer.js:185-197 | tiles later in (zoom, row, column) order are never in an earlier group, within a level and across level boundaries |
| `TileAddress.GetTileGroup` | leaflet.facsimileViewer.js:185-198 | the loop that sums the coarser levels' tile counts, adds the row-major index and divides by 256 yields the group of the tile's number |
| `TileAddress.FormatTileUrl` | leaflet.facsimileViewer.js:168-176 | the concatenation base, "TileGroup", group, "/", zoom, "-", x, "-", y, ".jpg" with each number in decimal; the URL starts with base + "TileGroup" and ends in ".jpg" |
| `TileAddress.ParseFormatTileUrl` | leaflet.facsimileViewer.js:168-176 | a URL built as base, "TileGroup", group, "/", zoom, "-", x, "-", y, ".jpg" parses back to exactly those four numbers |
| `TileAddress.ParseTileUrl` | leaflet.facsimileViewer.js:168-176 | the reader for the format built at these lines, which has no counterpart in the code: any text it accepts is exactly the formatted URL of the fields it returns, so padded or otherwise re-spelt numbers are refused |
| `TileAddress.GetTileUrl` | leaflet.facsimileViewer.js:166-182 | the URL starts with the layer's base URL, ends in ".jpg", and parses back to the tile's group, the map zoom and the column and row; by `TileAddress.ParseTileUrl`'s contract that fixes the URL character for character |
| `TileAddress.TileUrlInjective` | leaflet.facsimileViewer.js:166-176 | different (zoom, x, y) give different URLs |
| `Decimal.ToDecimal` | leaflet.facsimileViewer.js:168-176 | the rendering of a number in the URL is non-empty, all digits, has no leading zero and denotes the number |
| `Decimal.CanonicalIsToDecimal` | leaflet.facsimileViewer.js:168-176 | the rendering of a number in the URL is its only non-empty digit string without a leading zero |
| `Decimal.ReadNatToDecimal` | leaflet.facsimileViewer.js:168-176 | a rendered number followed by a non-digit reads back as the number and the untouched rest |
| `Decimal.ReadFieldToDecimal` | leaflet.facsimileViewer.js:168-176 | a rendered number followed by a separator reads back as the number and what follows the separator |
| `Examples.ExampleLevels` | leaflet.facsimileViewer.js:49-63 | a 4096 × 3072 image with 256-pixel tiles has the five levels 256×192, 512×384, 1024×768, 2048×1536, 4096×3072 |
| `Examples.ExampleRetinaLevels` | leaflet.facsimileViewer.js:49-63 | with 128-pixel tiles the same image has a sixth level of 128×96 below |
| `Examples.ExampleLayer` | leaflet.facsimileViewer.js:24-69 | that layer has maxZoom 4 and a 16 × 12 full-resolution grid; on a retina display the tiles are 128 pixels, maxZoom is 5 and the grid is 32 × 24 |
| `Examples.ExamplePaddedUrlRefused` | leaflet.facsimileViewer.js:168-176 | "TileGroup00/0-0-0.jpg" is not read as a tile URL, because the group is written with a leading zero |

## Left out

- Leaflet and DOM plumbing (`onAdd`, `_initContainer`, tile creation and
  positioning, the jQuery `error` handler, the `setTimeout` readiness call,
  the `_update` throttling): user-interface and event-loop code. `StyleTile`
  models only the two size overrides of `_addTile`.
- The default tile size that a tile keeps when it is not overridden is set
  by Leaflet's `_initTile`, which is not part of this model.
  `EdgeExtentCorrect` takes it to be the tile size.
- The `subdomains` string split in `initialize`: this layer's `getTileUrl`
  never uses subdomains.
- `xy2latlng` and `latlng2xy`: they rely on the map's `project`/`unproject`
  and on floating-point `Math.pow`. Their retina branches, `zoom = zoom--`
  and `zoom = zoom++`, leave `zoom` unchanged.
- `loadImage`: its `Math.log` estimate of `maxZoom` is floating-point
  arithmetic. After the layer is constructed, `loadImage` decrements
  `maxZoom` again on retina displays; that caller-side step is not part of
  `initialize`.
- The scale control, the SVG overlays, the layer control with its
  `overlayadd`/`overlayremove` handlers, and the measure markers and labels
  (`addLayer`, `activateLayer`, `unload`, `showRect`): floating-point numerics
  and DOM/SVG user-interface state.
- Floating point: the model uses exact integer arithmetic. The code's
  `Math.ceil(x / tileSize)`, `divideBy(2).floor()` and `Math.floor(num / 256)`
  agree with it for integers in the range images have. `parseInt` is the
  identity on the integer sizes modelled. The tolerance is a `real`.
- Non-integer or negative widths, heights and tile coordinates: all of them
  are `nat` here.
- TileLayer.Initialize: returns `Failure(InvalidTileSize)` when the tile
  size left by the retina adjustment is below 1, where the code checks
  nothing. For a tile size of 0 the construction loop still ends, because
  halving reaches 0 × 0, but `Math.ceil(x / 0)` yields `Infinity` (or `NaN`
  for 0 / 0), so the code builds a layer with non-finite grid sizes. For a
  negative tile size the loop condition never becomes false and the code
  loops forever. Neither outcome is a layer the model can describe.
- Decimal rendering: JavaScript switches to exponent notation from 10^21 on.
  `ToDecimal` always writes plain digits.
