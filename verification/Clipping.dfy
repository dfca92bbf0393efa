/**
 Clipping a placement to its pane: which cells it takes on screen, and which part of the image
 is drawn in them. Both axes are treated alike, so one axis is modelled and used twice.
 */
module Clipping {
  import opened Common
  import opened HostGraphics

  const U16_MAX: int := 0xFFFF
  const U32_MAX: int := 0xFFFF_FFFF
  const I32_MAX: int := 0x7FFF_FFFF

  type u16 = x: nat | x <= U16_MAX
  type u32 = x: nat | x <= U32_MAX
  type i32 = x: int | -I32_MAX - 1 <= x <= I32_MAX

  function SaturatingMul(a: u32, b: u32): u32 {
    if a * b > U32_MAX then U32_MAX else a * b
  }

  function SaturatingSub(a: nat, b: nat): nat {
    if a < b then 0 else a - b
  }

  function SaturatingNeg(v: i32): i32 {
    if v == -I32_MAX - 1 then I32_MAX else -v
  }

  function Min(a: nat, b: nat): nat {
    if a < b then a else b
  }

  function Max(a: int, b: int): int {
    if a < b then b else a
  }

  function Scaled(value: nat, source: nat, dest: nat): nat
    requires dest > 0
  {
    var product: nat := value * source;
    product / dest
  }

  /** `scale_pixels`. */
  function ScalePixels(value: u32, source: u32, dest: u32): u32 {
    var scaled := Scaled(value, source, Max(dest, 1));
    if scaled > U32_MAX then U32_MAX else scaled
  }

  /**
   One axis: the pane's extent, the placement's first cell relative to the pane and its length in cells,
   the size of a cell, the rendered size in pixels, the part of the image asked for (0 for all), the image.
   */
  datatype Axis = Axis(
    areaStart: u16, areaLen: u16, viewport: i32, grid: u32, cell: u32, pixels: u32,
    sourceStart: u32, sourceLen: u32, image: u32)

  /** What is left of one axis; `uncut` when nothing is missing before the first visible cell. */
  datatype Strip = Strip(start: nat, cells: nat, sourceStart: nat, sourceLen: nat, uncut: bool)

  function Requested(a: Axis): u32 {
    if a.sourceLen == 0 then a.image else a.sourceLen
  }

  function CutBefore(a: Axis): u32 {
    if a.viewport < 0 then SaturatingNeg(a.viewport) else 0
  }

  function VisibleCells(a: Axis): u32 {
    var at := Max(a.viewport, 0);
    if at >= a.areaLen then 0 else Min(SaturatingSub(a.grid, CutBefore(a)), a.areaLen - at)
  }

  function RenderedPixels(a: Axis): u32 {
    Max(Max(a.pixels, SaturatingMul(a.grid, a.cell)), 1)
  }

  /** The first image pixel drawn; the addition wraps at 32 bits. */
  function FirstPixel(a: Axis): u32 {
    (a.sourceStart + ScalePixels(SaturatingMul(CutBefore(a), a.cell), Requested(a), RenderedPixels(a))) % (U32_MAX + 1)
  }

  function PixelCount(a: Axis): u32 {
    var wanted := ScalePixels(SaturatingMul(VisibleCells(a), a.cell), Requested(a), RenderedPixels(a));
    Min(Max(wanted, 1), SaturatingSub(a.image, FirstPixel(a)))
  }

  function ClipAxis(a: Axis): Option<Strip> {
    if a.areaLen == 0 || a.grid == 0 || VisibleCells(a) == 0 || PixelCount(a) == 0 then None
    else
      Some(Strip(a.areaStart + Max(a.viewport, 0), VisibleCells(a), FirstPixel(a), PixelCount(a), CutBefore(a) == 0))
  }

  /** Both axes must leave something; a sub-cell offset only survives where nothing was cut off. */
  function ClippedPlacement(h: Axis, v: Axis, xOffset: u32, yOffset: u32): Option<Clipped> {
    var x, y := ClipAxis(h), ClipAxis(v);
    if x.None? || y.None? then None
    else
      Some(Clipped(
        x.value.start, y.value.start, x.value.cells, y.value.cells,
        x.value.sourceStart, y.value.sourceStart, x.value.sourceLen, y.value.sourceLen,
        if x.value.uncut then xOffset else 0, if y.value.uncut then yOffset else 0))
  }

  // --- Cells ---

  predicate Covers(start: int, len: nat, cell: int) {
    start <= cell < start + len
  }

  /** Where the whole placement starts on screen, possibly left of the pane or of the screen. */
  function Origin(a: Axis): int {
    a.areaStart + a.viewport
  }

  /** A placement that starts at the smallest 32-bit position is cut one cell short of what it should be. */
  predicate NegationExact(a: Axis) {
    a.viewport != -I32_MAX - 1 || a.grid <= I32_MAX || a.grid - I32_MAX - 1 >= a.areaLen
  }

  ghost predicate CellsAreIntersection(a: Axis) {
    forall cell: int :: Covers(a.areaStart + Max(a.viewport, 0), VisibleCells(a), cell)
      <==> Covers(a.areaStart, a.areaLen, cell) && Covers(Origin(a), a.grid, cell)
  }

  /**
   The visible cells are exactly the placement's cells inside the pane, for every input but the one
   whose position cannot be negated in 32 bits.
   */
  lemma {:induction false} VisibleIsIntersectionIff(a: Axis)
    ensures CellsAreIntersection(a) <==> NegationExact(a)
  {
    if !NegationExact(a) {
      var extra := a.areaStart + VisibleCells(a) - 1;
      assert Covers(a.areaStart + Max(a.viewport, 0), VisibleCells(a), extra);
      assert !Covers(Origin(a), a.grid, extra);
    }
  }

  predicate Shared(a: Axis, cell: int) {
    Covers(a.areaStart, a.areaLen, cell) && Covers(Origin(a), a.grid, cell)
  }

  /**
   Nothing is drawn exactly when pane and placement share no cell or the first visible cell lies past
   the end of the image; otherwise exactly the shared cells are drawn.
   */
  lemma {:induction false} PlacementIsCutToPane(h: Axis, v: Axis, xOffset: u32, yOffset: u32)
    requires NegationExact(h) && NegationExact(v)
    ensures var c := ClippedPlacement(h, v, xOffset, yOffset);
            && (c.None? <==> (forall x, y :: !(Shared(h, x) && Shared(v, y)))
                             || FirstPixel(h) >= h.image || FirstPixel(v) >= v.image)
            && (c.Some? ==> forall x: int, y: int ::
                  Covers(c.value.x, c.value.cols, x) && Covers(c.value.y, c.value.rows, y)
                  <==> Shared(h, x) && Shared(v, y))
  {
    VisibleIsIntersectionIff(h);
    VisibleIsIntersectionIff(v);
    AxisIsCut(h);
    AxisIsCut(v);
    hide ClipAxis, FirstPixel, VisibleCells, Shared, CellsAreIntersection;
    if h.areaLen > 0 && VisibleCells(h) > 0 && VisibleCells(v) > 0 {
      assert Shared(h, h.areaStart + Max(h.viewport, 0)) && Shared(v, v.areaStart + Max(v.viewport, 0));
    }
  }

  lemma {:induction false} AxisIsCut(a: Axis)
    requires CellsAreIntersection(a)
    ensures ClipAxis(a).None? <==> VisibleCells(a) == 0 || FirstPixel(a) >= a.image
    ensures ClipAxis(a).Some? ==> forall x: int :: Covers(ClipAxis(a).value.start, ClipAxis(a).value.cells, x) <==> Shared(a, x)
    ensures VisibleCells(a) > 0 ==> Shared(a, a.areaStart + Max(a.viewport, 0))
    ensures VisibleCells(a) == 0 ==> forall x :: !Shared(a, x)
  {
    hide FirstPixel, ScalePixels, SaturatingMul, RenderedPixels;
    if VisibleCells(a) > 0 {
      assert Covers(a.areaStart + Max(a.viewport, 0), VisibleCells(a), a.areaStart + Max(a.viewport, 0));
    }
  }

  // --- Pixels ---

  /** Scaling does not leave the source, and scaling two adjoining parts stays within scaling the whole. */
  lemma {:induction false} ScaleWithin(x: nat, y: nat, s: nat, d: nat)
    requires d > 0 && x + y <= d
    ensures Scaled(x, s, d) + Scaled(y, s, d) <= s
    ensures x < d && s > 0 ==> Scaled(x, s, d) < s
  {
    var m, n, whole := x * s, y * s, d * s;
    MulLe(x + y, d, s);
    assert (x + y) * s == m + n;
    assert m + n <= whole;
    QuotientsAdd(m, n, s, d);
    if x < d && s > 0 {
      MulLe(x + 1, d, s);
      assert (x + 1) * s == m + s;
      QuotientBelow(m, s, d);
    }
  }

  lemma {:induction false} QuotientsAdd(m: nat, n: nat, s: nat, d: nat)
    requires d > 0 && m + n <= d * s
    ensures m / d + n / d <= s
  {
    var p, q := m / d, n / d;
    Remainder(m, d);
    Remainder(n, d);
    assert (p + q) * d == p * d + q * d;
    assert (s + 1) * d == d * s + d;
    if p + q > s {
      MulLe(s + 1, p + q, d);
    }
  }

  lemma {:induction false} Remainder(n: nat, d: nat)
    requires d > 0
    ensures n / d * d <= n
  {
  }

  lemma {:induction false} MulLe(x: nat, y: nat, s: nat)
    requires x <= y
    ensures x * s <= y * s
  {
    assert (y - x) * s >= 0;
    assert y * s == x * s + (y - x) * s;
  }

  lemma {:induction false} QuotientAtLeast(n: nat, q: nat, d: nat)
    requires d > 0 && q * d <= n
    ensures q <= n / d
  {
    if n / d < q {
      MulLe(n / d + 1, q, d);
    }
  }

  lemma {:induction false} QuotientAtMost(n: nat, q: nat, d: nat)
    requires d > 0 && n <= d * q
    ensures n / d <= q
  {
    if n / d > q {
      QuotientBelow(n, q + 1, d);
    }
  }

  lemma {:induction false} QuotientBelow(n: nat, q: nat, d: nat)
    requires d > 0 && n < d * q
    ensures n / d < q
  {
    if n / d >= q {
      MulLe(q, n / d, d);
    }
  }

  /** What is drawn is a nonempty part of the image, whatever was asked for. */
  lemma {:induction false} SourceInsideImage(h: Axis, v: Axis, xOffset: u32, yOffset: u32)
    ensures ClippedPlacement(h, v, xOffset, yOffset).Some? ==>
              var c := ClippedPlacement(h, v, xOffset, yOffset).value;
              && 0 < c.sourceWidth && c.sourceX + c.sourceWidth <= h.image
              && 0 < c.sourceHeight && c.sourceY + c.sourceHeight <= v.image
  {
    hide ScalePixels, SaturatingMul, VisibleCells, CutBefore, RenderedPixels, FirstPixel;
  }

  /** No 32-bit saturation or wrap-around on this axis. */
  predicate Exact(a: Axis) {
    a.grid * a.cell <= U32_MAX && a.sourceStart + Requested(a) <= U32_MAX
  }

  /** Without overflow what is drawn is also part of what was asked for. */
  lemma {:induction false} SourceInsideRequest(a: Axis)
    ensures ClipAxis(a).Some? && Exact(a) ==>
              var s := ClipAxis(a).value;
              a.sourceStart <= s.sourceStart && s.sourceStart + s.sourceLen <= a.sourceStart + Requested(a)
  {
    hide *;
    if ClipAxis(a).Some? && Exact(a) {
      var source, d := Requested(a), RenderedPixels(a);
      var x, y := SaturatingMul(CutBefore(a), a.cell), SaturatingMul(VisibleCells(a), a.cell);
      PixelsFit(a);
      ClipAxisMeans(a);
      ScaleWithin(x, y, source, d);
      SmallScale(x, source, d);
      SmallScale(y, source, d);
      WindowFits(a, Scaled(x, source, d), Scaled(y, source, d), source);
    }
  }

  lemma {:induction false} ClipAxisMeans(a: Axis)
    requires ClipAxis(a).Some?
    ensures ClipAxis(a).value.sourceStart == FirstPixel(a) && ClipAxis(a).value.sourceLen == PixelCount(a)
    ensures PixelCount(a) > 0 && Requested(a) > 0
  {
    hide FirstPixel, VisibleCells, CutBefore, ScalePixels, SaturatingMul, RenderedPixels;
  }

  /** The pixels cut off and the pixels shown fit, one after the other, in the rendered size. */
  lemma {:induction false} PixelsFit(a: Axis)
    requires ClipAxis(a).Some? && Exact(a)
    ensures var x, y := SaturatingMul(CutBefore(a), a.cell), SaturatingMul(VisibleCells(a), a.cell);
            && x + y <= RenderedPixels(a) && x < RenderedPixels(a)
  {
    hide PixelCount, FirstPixel, Requested;
    var cut, shown := CutBefore(a), VisibleCells(a);
    assert cut + shown <= a.grid && 0 < shown;
    CellsFit(cut, shown, a.grid, a.cell);
    hide CutBefore, VisibleCells, SaturatingMul;
  }

  lemma {:induction false} CellsFit(cut: u32, shown: u32, grid: u32, cell: u32)
    requires cut + shown <= grid && 0 < shown && grid * cell <= U32_MAX
    ensures SaturatingMul(cut, cell) + SaturatingMul(shown, cell) <= SaturatingMul(grid, cell)
    ensures cell > 0 ==> 0 < SaturatingMul(shown, cell)
    ensures cell == 0 ==> SaturatingMul(cut, cell) == 0
  {
    MulLe(cut + shown, grid, cell);
    assert (cut + shown) * cell == cut * cell + shown * cell;
    MulLe(1, shown, cell);
  }

  lemma {:induction false} SmallScale(x: u32, source: u32, d: u32)
    requires d > 0 && Scaled(x, source, d) <= source
    ensures ScalePixels(x, source, d) == Scaled(x, source, d)
  {
    hide Scaled;
  }

  lemma {:induction false} WindowFits(a: Axis, p: nat, q: nat, source: nat)
    requires Exact(a) && p + q <= source && p < source && source == Requested(a)
    requires ScalePixels(SaturatingMul(CutBefore(a), a.cell), Requested(a), RenderedPixels(a)) == p
    requires ScalePixels(SaturatingMul(VisibleCells(a), a.cell), Requested(a), RenderedPixels(a)) == q
    ensures PixelCount(a) > 0 ==> a.sourceStart <= FirstPixel(a) && FirstPixel(a) + PixelCount(a) <= a.sourceStart + source
  {
    hide CutBefore, VisibleCells, Requested, RenderedPixels, SaturatingMul, ScalePixels;
    var first := a.sourceStart + p;
    assert first <= U32_MAX && FirstPixel(a) == first;
  }

  /** A placement wholly inside its pane, drawn at its cells' size, shows exactly what was asked for. */
  lemma {:induction false} WholePlacementShowsWholeSource(a: Axis)
    requires Exact(a) && 0 < a.grid && 0 < a.cell && a.pixels <= a.grid * a.cell
    requires 0 <= a.viewport && a.viewport + a.grid <= a.areaLen
    requires 0 < Requested(a) && a.sourceStart + Requested(a) <= a.image
    ensures ClipAxis(a) == Some(Strip(Origin(a), a.grid, a.sourceStart, Requested(a), true))
  {
    assert VisibleCells(a) == a.grid && CutBefore(a) == 0;
    MulLe(1, a.cell, a.grid);
    var d := a.grid * a.cell;
    assert RenderedPixels(a) == d && SaturatingMul(VisibleCells(a), a.cell) == d && SaturatingMul(CutBefore(a), a.cell) == 0;
    WholeScale(d, Requested(a));
    hide RenderedPixels, SaturatingMul, ScalePixels, CutBefore, VisibleCells;
  }

  lemma {:induction false} WholeScale(d: u32, source: u32)
    requires d > 0
    ensures ScalePixels(d, source, d) == source && ScalePixels(0, source, d) == 0
  {
    QuotientAtLeast(d * source, source, d);
    QuotientAtMost(d * source, source, d);
  }

  /** The placement is drawn over its cells, or larger when its pixels say so. */
  predicate DrawnSize(a: Axis, size: nat) {
    && 0 < size && a.pixels <= size && a.grid * a.cell <= size
    && (size == a.pixels || size == a.grid * a.cell || size == 1)
  }

  /** `n` is the whole part of `amount / size`. */
  predicate WholePart(n: int, amount: int, size: int) {
    n * size <= amount < (n + 1) * size
  }

  /**
   The image pixels drawn in a strip of cells are those the uncut placement has there: as many pixels
   are skipped as the hidden cells take, and as many are drawn as the cells shown take, one at least
   and none past the end of the image.
   */
  ghost predicate ShowsOwnPixels(a: Axis, start: nat, cells: nat, first: nat, count: nat) {
    var source := if a.sourceLen == 0 then a.image else a.sourceLen;
    exists size: nat, shown: nat ::
      && DrawnSize(a, size) && WholePart(shown, cells * a.cell * source, size)
      && Origin(a) <= start && a.sourceStart <= first
      && WholePart(first - a.sourceStart, (start - Origin(a)) * a.cell * source, size)
      && first + count <= a.image && count <= Max(shown, 1)
      && (count == Max(shown, 1) || first + count == a.image)
  }

  lemma {:induction false} DivisionIsWhole(amount: nat, size: nat)
    requires size > 0
    ensures WholePart(amount / size, amount, size)
  {
    Remainder(amount, size);
    if (amount / size + 1) * size <= amount {
      QuotientAtLeast(amount, amount / size + 1, size);
    }
  }

  /** Where the strip starts, and what it is cut from. */
  lemma {:induction false} StripMeans(a: Axis)
    requires ClipAxis(a).Some? && a.viewport > -I32_MAX - 1
    ensures var s := ClipAxis(a).value;
            && s.start - Origin(a) == CutBefore(a) && s.cells == VisibleCells(a) && s.uncut == (CutBefore(a) == 0)
            && s.sourceStart == FirstPixel(a) && s.sourceLen == PixelCount(a)
            && CutBefore(a) + VisibleCells(a) <= a.grid && 0 < VisibleCells(a)
  {
    hide FirstPixel, PixelCount;
  }

  /** Without overflow the pixel counts are plain products. */
  lemma {:induction false} PlainProducts(a: Axis, cut: u32, cells: u32)
    requires Exact(a) && cut + cells <= a.grid
    ensures SaturatingMul(cut, a.cell) == cut * a.cell && SaturatingMul(cells, a.cell) == cells * a.cell
    ensures SaturatingMul(a.grid, a.cell) == a.grid * a.cell
  {
    MulLe(cut, a.grid, a.cell);
    MulLe(cells, a.grid, a.cell);
    hide Requested;
  }

  lemma {:induction false} RenderedIsDrawnSize(a: Axis)
    requires SaturatingMul(a.grid, a.cell) == a.grid * a.cell
    ensures DrawnSize(a, RenderedPixels(a))
  {
    hide SaturatingMul;
  }

  /** The first pixel and the number of pixels, as whole parts of the hidden and the shown share of the request. */
  lemma {:induction false} PixelsOfCells(a: Axis, hidden: u32, shown: u32)
    requires Exact(a) && hidden == SaturatingMul(CutBefore(a), a.cell) && shown == SaturatingMul(VisibleCells(a), a.cell)
    requires hidden + shown <= RenderedPixels(a) && 0 < PixelCount(a)
    ensures var source, size := Requested(a), RenderedPixels(a);
            && FirstPixel(a) == a.sourceStart + Scaled(hidden, source, size)
            && PixelCount(a) == Min(Max(Scaled(shown, source, size), 1), SaturatingSub(a.image, FirstPixel(a)))
            && FirstPixel(a) + PixelCount(a) <= a.image
  {
    var source, size := Requested(a), RenderedPixels(a);
    assert size > 0;
    hide *;
    ScaleWithin(hidden, shown, source, size);
    SmallScale(hidden, source, size);
    SmallScale(shown, source, size);
    PixelsAre(a, Scaled(hidden, source, size), Scaled(shown, source, size));
  }

  lemma {:induction false} PixelsAre(a: Axis, first: nat, shown: nat)
    requires Exact(a) && first <= Requested(a) && shown <= Requested(a) && 0 < PixelCount(a)
    requires ScalePixels(SaturatingMul(CutBefore(a), a.cell), Requested(a), RenderedPixels(a)) == first
    requires ScalePixels(SaturatingMul(VisibleCells(a), a.cell), Requested(a), RenderedPixels(a)) == shown
    ensures FirstPixel(a) == a.sourceStart + first
    ensures PixelCount(a) == Min(Max(shown, 1), SaturatingSub(a.image, FirstPixel(a)))
    ensures FirstPixel(a) + PixelCount(a) <= a.image
  {
    hide ScalePixels, SaturatingMul, CutBefore, VisibleCells, RenderedPixels, Requested;
    var at := a.sourceStart + first;
    assert at <= U32_MAX && FirstPixel(a) == at;
  }

  lemma {:induction false} StripShowsOwnPixels(a: Axis)
    requires ClipAxis(a).Some? && Exact(a) && a.viewport > -I32_MAX - 1
    ensures var s := ClipAxis(a).value; ShowsOwnPixels(a, s.start, s.cells, s.sourceStart, s.sourceLen)
    ensures ClipAxis(a).value.uncut <==> ClipAxis(a).value.start == Origin(a)
  {
    hide *;
    var s := ClipAxis(a).value;
    var source, size := Requested(a), RenderedPixels(a);
    StripMeans(a);
    PlainProducts(a, s.start - Origin(a), s.cells);
    RenderedIsDrawnSize(a);
    PixelsFit(a);
    ClipAxisMeans(a);
    var hidden, shown := CutBefore(a) * a.cell, s.cells * a.cell;
    PixelsOfCells(a, hidden, shown);
    DivisionIsWhole(hidden * source, size);
    DivisionIsWhole(shown * source, size);
    StripShows(a, s, source, size, hidden, shown);
  }

  lemma {:induction false} StripShows(a: Axis, s: Strip, source: nat, size: nat, hidden: nat, shown: nat)
    requires source == Requested(a) && 0 < size && DrawnSize(a, size)
    requires Origin(a) <= s.start && hidden == (s.start - Origin(a)) * a.cell && shown == s.cells * a.cell
    requires WholePart(hidden * source / size, hidden * source, size) && WholePart(shown * source / size, shown * source, size)
    requires s.sourceStart == a.sourceStart + Scaled(hidden, source, size)
    requires s.sourceLen == Min(Max(Scaled(shown, source, size), 1), SaturatingSub(a.image, s.sourceStart))
    requires s.sourceStart + s.sourceLen <= a.image
    ensures ShowsOwnPixels(a, s.start, s.cells, s.sourceStart, s.sourceLen)
  {
    hide DrawnSize, WholePart, Origin;
    var whole: nat := shown * source;
    assert Scaled(hidden, source, size) == hidden * source / size && Scaled(shown, source, size) == whole / size;
  }

  /**
   What is left of a placement shows, in each of its cells, the pixels the uncut placement shows there;
   the sub-cell offset is kept exactly when the placement's own first cell is shown.
   */
  lemma {:induction false} CellsKeepTheirPixels(h: Axis, v: Axis, xOffset: u32, yOffset: u32)
    requires Exact(h) && Exact(v) && h.viewport > -I32_MAX - 1 && v.viewport > -I32_MAX - 1
    requires ClippedPlacement(h, v, xOffset, yOffset).Some?
    ensures var c := ClippedPlacement(h, v, xOffset, yOffset).value;
            && ShowsOwnPixels(h, c.x, c.cols, c.sourceX, c.sourceWidth)
            && ShowsOwnPixels(v, c.y, c.rows, c.sourceY, c.sourceHeight)
            && c.xOffset == (if c.x == Origin(h) then xOffset else 0)
            && c.yOffset == (if c.y == Origin(v) then yOffset else 0)
  {
    StripShowsOwnPixels(h);
    StripShowsOwnPixels(v);
    hide ClipAxis, ShowsOwnPixels, Exact;
  }
}
