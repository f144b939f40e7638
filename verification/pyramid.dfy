/**
 Geometry of the Zoomify-style image pyramid built by `L.TileLayer.Plain`:
 the full image is halved (rounding down) until it fits in one tile, and the
 resulting list of level sizes is reversed so that level 0 is the coarsest.
 */
module Pyramid {

  /** A pixel or tile-count extent, `x` wide and `y` high. */
  datatype Size = Size(x: nat, y: nat)

  /** A tile edge length the grid arithmetic can divide by. */
  type TileSize = t: int | t >= 1 witness 256

  /** One halving step: both dimensions divided by two, rounded down. */
  function Half(s: Size): (h: Size)
    ensures 2 * h.x <= s.x <= 2 * h.x + 1
    ensures 2 * h.y <= s.y <= 2 * h.y + 1
  {
    Size(s.x / 2, s.y / 2)
  }

  /** True when `s` does not fit in a single `tileSize` square (the loop condition). */
  predicate Exceeds(s: Size, tileSize: int) {
    s.x > tileSize || s.y > tileSize
  }

  /**
   The sizes in the order the construction loop pushes them: `s` first, then
   successive halvings, stopping at the first size that fits in one tile.
   */
  function Halvings(s: Size, tileSize: nat): (r: seq<Size>)
    ensures |r| >= 1 && r[0] == s
    ensures !Exceeds(r[|r| - 1], tileSize)
    ensures forall i :: 0 <= i < |r| - 1 ==> Exceeds(r[i], tileSize) && r[i + 1] == Half(r[i])
    decreases s.x + s.y
  {
    if Exceeds(s, tileSize) then [s] + Halvings(Half(s), tileSize) else [s]
  }

  function Reverse<T>(s: seq<T>): (r: seq<T>)
    ensures |r| == |s|
    ensures forall i :: 0 <= i < |s| ==> r[i] == s[|s| - 1 - i]
  {
    if |s| == 0 then [] else Reverse(s[1..]) + [s[0]]
  }

  /** Each level is the halving of the next finer one. */
  predicate HalvingChain(levels: seq<Size>) {
    forall k :: 0 <= k < |levels| - 1 ==> levels[k] == Half(levels[k + 1])
  }

  /**
   The properties that make `levels` the pyramid of an image of size `finest`
   for tiles of edge `tileSize`: the last level is the image itself, each level
   is the halving of the next finer one, level 0 fits in one tile and every
   finer level does not.
   */
  predicate IsPyramid(levels: seq<Size>, finest: Size, tileSize: int) {
    && |levels| >= 1
    && levels[|levels| - 1] == finest
    && HalvingChain(levels)
    && !Exceeds(levels[0], tileSize)
    && (forall k :: 1 <= k < |levels| ==> Exceeds(levels[k], tileSize))
  }

  /** The level sizes, coarsest first, of the pyramid over an image of size `s`. */
  function Levels(s: Size, tileSize: nat): (r: seq<Size>)
    ensures IsPyramid(r, s, tileSize)
    ensures |r| == 1 <==> !Exceeds(s, tileSize)
  {
    Reverse(Halvings(s, tileSize))
  }

  /** Ceiling of `n / t`: the number of `t`-wide tiles needed to cover `n` pixels. */
  function CeilDiv(n: nat, t: TileSize): nat {
    (n + t - 1) / t
  }

  /**
   `CeilDiv` is the ceiling: the least tile count whose span reaches `n`.
   Kept out of `CeilDiv`'s own contract so that the non-linear facts enter
   a proof only where they are asked for.
   */
  lemma CeilDivIsCeiling(n: nat, t: TileSize)
    ensures (CeilDiv(n, t) - 1) * t < n <= CeilDiv(n, t) * t
  {
  }

  /** The tile grid (columns, rows) covering an image of size `s`. */
  function GridSize(s: Size, t: TileSize): Size {
    Size(CeilDiv(s.x, t), CeilDiv(s.y, t))
  }

  /** In each direction the grid has the fewest tiles covering the image. */
  lemma GridSizeCovers(s: Size, t: TileSize)
    ensures (GridSize(s, t).x - 1) * t < s.x <= GridSize(s, t).x * t
    ensures (GridSize(s, t).y - 1) * t < s.y <= GridSize(s, t).y * t
  {
    CeilDivIsCeiling(s.x, t);
    CeilDivIsCeiling(s.y, t);
  }

  /** The grid of every level, index by index. */
  function GridSizes(sizes: seq<Size>, t: TileSize): (g: seq<Size>)
    ensures |g| == |sizes|
    ensures forall k :: 0 <= k < |sizes| ==> g[k] == GridSize(sizes[k], t)
  {
    seq(|sizes|, k requires 0 <= k < |sizes| => GridSize(sizes[k], t))
  }

  /**
   The construction loop as written: push the full size and its grid, halve
   and push while the current size exceeds one tile, then reverse both lists.
   */
  method BuildLevels(s: Size, t: TileSize) returns (imageSizes: seq<Size>, gridSizes: seq<Size>)
    ensures imageSizes == Levels(s, t)
    ensures gridSizes == GridSizes(imageSizes, t)
  {
    ghost var h := Halvings(s, t);
    var current := s;
    var sizes := [current];
    var grids := [GridSize(current, t)];
    while current.x > t || current.y > t
      invariant 1 <= |sizes| <= |h| && sizes == h[..|sizes|]
      invariant sizes[|sizes| - 1] == current
      invariant grids == GridSizes(sizes, t)
      decreases current.x + current.y
    {
      GridSizesSnoc(sizes, Half(current), t);
      current := Half(current);
      sizes := sizes + [current];
      grids := grids + [GridSize(current, t)];
    }
    assert sizes == h;
    GridSizesReverse(sizes, t);
    imageSizes := Reverse(sizes);
    gridSizes := Reverse(grids);
  }

  lemma GridSizesSnoc(sizes: seq<Size>, s: Size, t: TileSize)
    ensures GridSizes(sizes + [s], t) == GridSizes(sizes, t) + [GridSize(s, t)]
  {
  }

  lemma GridSizesReverse(sizes: seq<Size>, t: TileSize)
    ensures Reverse(GridSizes(sizes, t)) == GridSizes(Reverse(sizes), t)
  {
  }

  /** Along a pyramid, a coarser level is never larger than a finer one. */
  lemma {:induction false} CoarserIsSmaller(levels: seq<Size>, i: nat, j: nat)
    requires HalvingChain(levels)
    requires i <= j < |levels|
    ensures levels[i].x <= levels[j].x && levels[i].y <= levels[j].y
    decreases j - i
  {
    if i < j {
      CoarserIsSmaller(levels, i + 1, j);
      assert levels[i] == Half(levels[i + 1]);
    }
  }

  /** A pyramid is determined by the image size and the tile size. */
  lemma PyramidUnique(a: seq<Size>, b: seq<Size>, finest: Size, tileSize: int)
    requires IsPyramid(a, finest, tileSize) && IsPyramid(b, finest, tileSize)
    ensures a == b
  {
    SameFromFinest(a, b, finest, tileSize, 0);
    if |a| < |b| {
      SameFromFinest(a, b, finest, tileSize, |a| - 1);
      assert false;
    } else if |b| < |a| {
      SameFromFinest(a, b, finest, tileSize, |b| - 1);
      assert false;
    }
    assert |a| == |b|;
    forall k | 0 <= k < |a|
      ensures a[k] == b[k]
    {
      SameFromFinest(a, b, finest, tileSize, |a| - 1 - k);
    }
  }

  /** Two pyramids over the same image agree level by level, counting from the finest. */
  lemma {:induction false} SameFromFinest(a: seq<Size>, b: seq<Size>, finest: Size, tileSize: int, j: nat)
    requires IsPyramid(a, finest, tileSize) && IsPyramid(b, finest, tileSize)
    requires j < |a| && j < |b|
    ensures a[|a| - 1 - j] == b[|b| - 1 - j]
  {
    if j > 0 {
      SameFromFinest(a, b, finest, tileSize, j - 1);
      assert a[|a| - 1 - j] == Half(a[|a| - j]);
      assert b[|b| - 1 - j] == Half(b[|b| - j]);
    }
  }

  /** `Levels` is the only pyramid over an image: any sequence with the pyramid properties is it. */
  lemma LevelsCharacterized(levels: seq<Size>, s: Size, tileSize: nat)
    requires IsPyramid(levels, s, tileSize)
    ensures Levels(s, tileSize) == levels
  {
    PyramidUnique(Levels(s, tileSize), levels, s, tileSize);
  }
}
