/**
 * The text point sampler: after a string has been drawn into the 1024 x 512
 * RGBA raster (the drawing itself is an input here, as the byte buffer),
 * the raster is scanned on a stride grid in row-major order, every grid
 * cell whose alpha byte exceeds 130 becomes a world-space point with a
 * hash-derived depth jitter, and an over-full point list is thinned by a
 * fixed stride to exactly the particle budget.
 */
module TextRaster {
  import opened Common

  const Width: nat := 1024
  const Height: nat := 512
  const AlphaThreshold: int := 130

  /** A raster cell (pixel coordinates). */
  datatype Cell = Cell(x: nat, y: nat)

  /**
   * The font size for a layout string of `layoutLength` characters in a
   * window of the given size: 24% of the smaller window side, shrunk in
   * steps at 4, 7 and 10 characters, never below 44 pixels.
   */
  function FontSize(innerWidth: nat, innerHeight: nat, layoutLength: nat): (size: real)
    ensures size >= 44.0
  {
    var base := MinReal(innerWidth as real * 0.24, innerHeight as real * 0.24).Floor as real;
    var s4 := if layoutLength >= 4 then base * 0.78 else base;
    var s7 := if layoutLength >= 7 then s4 * 0.62 else s4;
    var s10 := if layoutLength >= 10 then s7 * 0.48 else s7;
    MaxReal(44.0, s10)
  }

  /** A longer layout string never gets a larger font. */
  lemma FontSizeShrinks(innerWidth: nat, innerHeight: nat, len1: nat, len2: nat)
    requires len1 <= len2
    ensures FontSize(innerWidth, innerHeight, len2) <= FontSize(innerWidth, innerHeight, len1)
  {
    var base := MinReal(innerWidth as real * 0.24, innerHeight as real * 0.24).Floor as real;
    assert base >= 0.0;
  }

  /** Index of the alpha byte of cell (x, y) in the RGBA buffer. */
  function AlphaIndex(x: nat, y: nat): nat {
    (y * Width + x) * 4 + 3
  }

  /** A cell is kept when its alpha byte exists and exceeds the threshold. */
  predicate Kept(image: seq<int>, x: nat, y: nat) {
    AlphaIndex(x, y) < |image| && image[AlphaIndex(x, y)] > AlphaThreshold
  }

  /**
   * The depth-jitter hash `((x * 73856093) ^ (y * 19349663)) & 1023`.  The
   * mask keeps the low ten bits, and the low ten bits of a 32-bit
   * wrap-around, of an exclusive or, and of a two's-complement value are
   * those of the exact operands, so only the products modulo 1024 matter.
   */
  function JitterHash(x: nat, y: nat): (h: nat)
    ensures h < 1024
  {
    Xor((x * 73856093) % 1024, (y * 19349663) % 1024, 10)
  }

  function Pow2(n: nat): (p: nat)
    ensures p > 0
  {
    if n == 0 then 1 else 2 * Pow2(n - 1)
  }

  /** Bitwise exclusive or of the low n bits of a and b, bit by bit from the lowest. */
  function Xor(a: nat, b: nat, n: nat): (h: nat)
    ensures h < Pow2(n)
  {
    if n == 0 then 0
    else (if a % 2 == b % 2 then 0 else 1) + 2 * Xor(a / 2, b / 2, n - 1)
  }

  /** Exclusive or is symmetric, and a value xor itself is zero. */
  lemma {:induction false} XorLaws(a: nat, b: nat, n: nat)
    ensures Xor(a, b, n) == Xor(b, a, n)
    ensures Xor(a, a, n) == 0
  {
    if n > 0 {
      XorLaws(a / 2, b / 2, n - 1);
      XorLaws(a / 2, a / 2, n - 1);
    }
  }

  /** The hash only sees the coordinates modulo 1024. */
  lemma JitterHashPeriodic(x: nat, y: nat)
    ensures JitterHash(x + 1024, y) == JitterHash(x, y)
    ensures JitterHash(x, y + 1024) == JitterHash(x, y)
  {
    assert (x + 1024) * 73856093 == x * 73856093 + 73856093 * 1024;
    AddMultipleMod(x * 73856093, 73856093, 1024);
    assert (y + 1024) * 19349663 == y * 19349663 + 19349663 * 1024;
    AddMultipleMod(y * 19349663, 19349663, 1024);
  }

  /**
   * The world point of a cell: centred pixel coordinates times `scale`
   * (y pointing up) and a depth in [-0.8, 0.8] from the hash.
   */
  function ToPoint(c: Cell, scale: real): (p: Vec3)
    ensures -0.8 <= p.z <= 0.8
  {
    var h := JitterHash(c.x, c.y) as real;
    assert 0.0 <= h / 1023.0 <= 1.0;
    Vec3((c.x as real - (Width / 2) as real) * scale,
         ((Height / 2) as real - c.y as real) * scale,
         (h / 1023.0 - 0.5) * 1.6)
  }

  function Points(cells: seq<Cell>, scale: real): (pts: seq<Vec3>)
    ensures |pts| == |cells|
  {
    seq(|cells|, i requires 0 <= i < |cells| => ToPoint(cells[i], scale))
  }

  lemma PointsSnoc(cells: seq<Cell>, c: Cell, scale: real)
    ensures Points(cells + [c], scale) == Points(cells, scale) + [ToPoint(c, scale)]
  {
  }

  /** The kept cells of row y at columns x, x + step, ... below the width. */
  function RowCells(image: seq<int>, step: nat, y: nat, x: nat): seq<Cell>
    requires step > 0
    decreases Width - x
  {
    if x >= Width then []
    else (if Kept(image, x, y) then [Cell(x, y)] else []) + RowCells(image, step, y, x + step)
  }

  /** The kept cells of rows y, y + step, ... below the height, row by row. */
  function GridCells(image: seq<int>, step: nat, y: nat): seq<Cell>
    requires step > 0
    decreases Height - y
  {
    if y >= Height then []
    else RowCells(image, step, y, 0) + GridCells(image, step, y + step)
  }

  /** Row-major position of a cell. */
  function Key(c: Cell): int {
    c.y * Width + c.x
  }

  ghost predicate RowMajor(cells: seq<Cell>) {
    forall i, j | 0 <= i < j < |cells| :: Key(cells[i]) < Key(cells[j])
  }

  /** Every cell of a row suffix is in bounds, on the column grid, kept, and in column order. */
  lemma {:induction false} RowCellsSound(image: seq<int>, step: nat, y: nat, x: nat)
    requires step > 0
    ensures RowMajor(RowCells(image, step, y, x))
    ensures forall c | c in RowCells(image, step, y, x) ::
      c.y == y && x <= c.x < Width && c.x % step == x % step && Kept(image, c.x, c.y)
    decreases Width - x
  {
    if x < Width {
      var rest := RowCells(image, step, y, x + step);
      RowCellsSound(image, step, y, x + step);
      ModShift(x, step);
      if Kept(image, x, y) {
        assert RowCells(image, step, y, x) == [Cell(x, y)] + rest;
        RowMajorCons(Cell(x, y), rest);
      } else {
        assert RowCells(image, step, y, x) == rest;
      }
    }
  }

  /** A cell before every cell of a row-major list keeps it row-major. */
  lemma RowMajorCons(c: Cell, rest: seq<Cell>)
    requires RowMajor(rest)
    requires forall d | d in rest :: Key(c) < Key(d)
    ensures RowMajor([c] + rest)
  {
    var all := [c] + rest;
    forall i, j | 0 <= i < j < |all| ensures Key(all[i]) < Key(all[j]) {
      assert all[j] == rest[j - 1];
      if i > 0 {
        assert all[i] == rest[i - 1];
      } else {
        assert rest[j - 1] in rest;
      }
    }
  }

  /** Every cell of a grid suffix is in bounds, on the grid, kept, and in row-major order. */
  lemma {:induction false} GridCellsSound(image: seq<int>, step: nat, y: nat)
    requires step > 0
    ensures RowMajor(GridCells(image, step, y))
    ensures forall c | c in GridCells(image, step, y) ::
      y <= c.y < Height && c.x < Width && c.x % step == 0 && c.y % step == y % step && Kept(image, c.x, c.y)
    decreases Height - y
  {
    if y < Height {
      var row, rest := RowCells(image, step, y, 0), GridCells(image, step, y + step);
      assert GridCells(image, step, y) == row + rest;
      RowCellsSound(image, step, y, 0);
      GridCellsSound(image, step, y + step);
      ModShift(y, step);
      forall c: Cell | c in row + rest
        ensures y <= c.y < Height && c.x < Width && c.x % step == 0 && c.y % step == y % step && Kept(image, c.x, c.y)
      {
        if c in row {
          assert c.y == y;
        } else {
          assert c in rest;
        }
      }
      RowMajorConcat(row, rest, y);
    }
  }

  /** A row followed by later rows stays in row-major order. */
  lemma RowMajorConcat(row: seq<Cell>, rest: seq<Cell>, y: nat)
    requires RowMajor(row) && RowMajor(rest)
    requires forall c | c in row :: c.y == y && c.x < Width
    requires forall c | c in rest :: c.y > y
    ensures RowMajor(row + rest)
  {
    var all := row + rest;
    forall i, j | 0 <= i < j < |all| ensures Key(all[i]) < Key(all[j]) {
      if j < |row| {
        assert all[i] == row[i] && all[j] == row[j];
      } else if i >= |row| {
        assert all[i] == rest[i - |row|] && all[j] == rest[j - |row|];
      } else {
        assert all[i] == row[i] && row[i] in row;
        assert all[j] == rest[j - |row|] && rest[j - |row|] in rest;
      }
    }
  }

  /** `hi` is reached from `lo` in whole strides of `step`. */
  predicate OnStride(lo: nat, hi: nat, step: nat)
    requires step > 0
    decreases hi - lo
  {
    hi == lo || (hi >= lo + step && OnStride(lo + step, hi, step))
  }

  /** A whole number of strides apart is on the stride. */
  lemma {:induction false} OnStrideOfMod(lo: nat, hi: nat, step: nat)
    requires step > 0 && lo <= hi && (hi - lo) % step == 0
    ensures OnStride(lo, hi, step)
    decreases hi - lo
  {
    if hi > lo {
      MultipleStep(hi - lo, step);
      OnStrideOfMod(lo + step, hi, step);
    }
  }

  /** Every kept cell on the column grid of a row suffix is in it. */
  lemma {:induction false} RowCellsComplete(image: seq<int>, step: nat, y: nat, x: nat, tx: nat)
    requires step > 0
    requires x <= tx < Width && OnStride(x, tx, step) && Kept(image, tx, y)
    ensures Cell(tx, y) in RowCells(image, step, y, x)
    decreases tx - x
  {
    var rest := RowCells(image, step, y, x + step);
    assert RowCells(image, step, y, x) == (if Kept(image, x, y) then [Cell(x, y)] else []) + rest;
    if tx != x {
      RowCellsComplete(image, step, y, x + step, tx);
    }
  }

  /** Every kept cell on the grid of a suffix of rows is in it. */
  lemma {:induction false} GridCellsComplete(image: seq<int>, step: nat, y: nat, ty: nat, cx: nat)
    requires step > 0
    requires y <= ty < Height && OnStride(y, ty, step)
    requires cx < Width && OnStride(0, cx, step) && Kept(image, cx, ty)
    ensures Cell(cx, ty) in GridCells(image, step, y)
    decreases ty - y
  {
    GridCellsUnfold(image, step, y);
    if ty != y {
      GridCellsComplete(image, step, y + step, ty, cx);
    } else {
      RowCellsComplete(image, step, y, 0, cx);
    }
  }

  lemma GridCellsUnfold(image: seq<int>, step: nat, y: nat)
    requires step > 0 && y < Height
    ensures forall c :: c in GridCells(image, step, y) <==>
      c in RowCells(image, step, y, 0) || c in GridCells(image, step, y + step)
  {
    assert GridCells(image, step, y) == RowCells(image, step, y, 0) + GridCells(image, step, y + step);
  }

  /** A positive multiple of step is at least step, and step less is again a multiple. */
  lemma MultipleStep(d: nat, step: nat)
    requires step > 0 && d > 0 && d % step == 0
    ensures d >= step && (d - step) % step == 0
  {
    var q := d / step;
    assert d == q * step;
    if q == 0 {
      assert false;
    }
    DivModUnique(d - step, step, q - 1, 0);
  }

  /**
   * The sampled cells are exactly the grid cells (both coordinates
   * multiples of the stride, inside the raster) whose alpha exceeds the
   * threshold, and they come in row-major order.
   */
  lemma SampledCellsExact(image: seq<int>, step: nat, x: nat, y: nat)
    requires step > 0
    ensures RowMajor(GridCells(image, step, 0))
    ensures Cell(x, y) in GridCells(image, step, 0) <==>
      x < Width && y < Height && x % step == 0 && y % step == 0 && Kept(image, x, y)
  {
    GridCellsSound(image, step, 0);
    if x < Width && y < Height && x % step == 0 && y % step == 0 && Kept(image, x, y) {
      OnStrideOfMod(0, x, step);
      OnStrideOfMod(0, y, step);
      GridCellsComplete(image, step, 0, y, x);
    }
  }

  /**
   * One column of the row scan: a kept cell extends the scanned prefix of
   * the row's cells (and its points) by itself, any other cell leaves both.
   */
  lemma RowScanStep(image: seq<int>, step: nat, y: nat, x: nat, done: seq<Cell>, scale: real, full: seq<Cell>)
    requires step > 0 && x < Width
    requires done + RowCells(image, step, y, x) == full
    ensures Kept(image, x, y) ==>
      && (done + [Cell(x, y)]) + RowCells(image, step, y, x + step) == full
      && Points(done + [Cell(x, y)], scale) == Points(done, scale) + [ToPoint(Cell(x, y), scale)]
    ensures !Kept(image, x, y) ==> done + RowCells(image, step, y, x + step) == full
  {
    var rest := RowCells(image, step, y, x + step);
    if Kept(image, x, y) {
      assert RowCells(image, step, y, x) == [Cell(x, y)] + rest;
      assert done + ([Cell(x, y)] + rest) == (done + [Cell(x, y)]) + rest;
    } else {
      assert RowCells(image, step, y, x) == rest;
    }
  }

  /** One row of the grid scan appends that row's cells and their points. */
  lemma GridScanStep(image: seq<int>, step: nat, y: nat, done: seq<Cell>, scale: real, full: seq<Cell>)
    requires step > 0 && y < Height
    requires done + GridCells(image, step, y) == full
    ensures var cells := RowCells(image, step, y, 0);
      && (done + cells) + GridCells(image, step, y + step) == full
      && Points(done + cells, scale) == Points(done, scale) + Points(cells, scale)
  {
    var cells, rest := RowCells(image, step, y, 0), GridCells(image, step, y + step);
    assert GridCells(image, step, y) == cells + rest;
    assert done + (cells + rest) == (done + cells) + rest;
    PointsAppend(done, cells, scale);
  }

  lemma PointsAppend(a: seq<Cell>, b: seq<Cell>, scale: real)
    ensures Points(a + b, scale) == Points(a, scale) + Points(b, scale)
  {
    var l, r := Points(a + b, scale), Points(a, scale) + Points(b, scale);
    forall i | 0 <= i < |l| ensures l[i] == r[i] {
      if i < |a| {
        assert l[i] == ToPoint(a[i], scale);
      } else {
        assert l[i] == ToPoint(b[i - |a|], scale);
      }
    }
  }

  /** The scan of one raster row at columns 0, step, 2 * step, ... */
  method SampleRow(image: seq<int>, step: nat, y: nat, scale: real) returns (pts: seq<Vec3>)
    requires step > 0
    ensures pts == Points(RowCells(image, step, y, 0), scale)
  {
    ghost var done: seq<Cell> := [];
    ghost var full := RowCells(image, step, y, 0);
    pts := [];
    var x: nat := 0;
    while x < Width
      invariant done + RowCells(image, step, y, x) == full
      invariant pts == Points(done, scale)
      decreases Width - x
    {
      RowScanStep(image, step, y, x, done, scale, full);
      var idx := AlphaIndex(x, y);
      if idx < |image| && image[idx] > AlphaThreshold {
        pts := pts + [ToPoint(Cell(x, y), scale)];
        done := done + [Cell(x, y)];
      }
      x := x + step;
    }
  }

  /** The scan of the raster: stride-grid rows top to bottom, kept cells projected. */
  method SampleGrid(image: seq<int>, step: nat, scale: real) returns (pts: seq<Vec3>)
    requires step > 0
    ensures pts == Points(GridCells(image, step, 0), scale)
  {
    ghost var done: seq<Cell> := [];
    ghost var full := GridCells(image, step, 0);
    pts := [];
    var y: nat := 0;
    while y < Height
      invariant done + GridCells(image, step, y) == full
      invariant pts == Points(done, scale)
      decreases Height - y
    {
      var row := SampleRow(image, step, y, scale);
      GridScanStep(image, step, y, done, scale, full);
      pts := pts + row;
      done := done + RowCells(image, step, y, 0);
      y := y + step;
    }
  }

  /** The source index of output i when thinning n points to m: floor(i * (n / m)). */
  function DownsampleIndex(i: nat, n: nat, m: nat): (k: int)
    requires m > 0
    ensures k == (i * n) / m
  {
    var q, r := (i * n) / m, (i * n) % m;
    assert (i * n) as real == q as real * m as real + r as real;
    assert i as real * (n as real / m as real) == q as real + r as real / m as real;
    (i as real * (n as real / m as real)).Floor
  }

  /** The thinned list: the first m of the fixed-stride picks when there are more than m points. */
  function Reduce<T>(pts: seq<T>, m: nat): seq<T> {
    if |pts| > m then
      seq(m, i requires 0 <= i < m => DownsampleIndexInRange(i, |pts|, m); pts[DownsampleIndex(i, |pts|, m)])
    else pts
  }

  lemma DownsampleIndexInRange(i: nat, n: nat, m: nat)
    requires i < m < n
    ensures 0 <= DownsampleIndex(i, n, m) < n
  {
    assert i * n < m * n;
    DivBelow(i * n, m, n);
  }

  /** More points than slots: consecutive picks are at least one index apart. */
  lemma DownsampleIndexStrict(i: nat, n: nat, m: nat)
    requires 0 < m < n
    ensures DownsampleIndex(i, n, m) < DownsampleIndex(i + 1, n, m)
  {
    var a := i * n;
    assert (i + 1) * n == a + n;
    var q := a / m;
    assert a == q * m + a % m;
    assert a + n >= (q + 1) * m;
    DivAtLeast(a + n, m, q + 1);
  }

  /**
   * Thinning keeps at most m points; with more than m it keeps exactly m,
   * picked at strictly increasing in-range indices `floor(i * n / m)`.
   */
  lemma {:induction false} ReduceSelects<T>(pts: seq<T>, m: nat)
    ensures |Reduce(pts, m)| <= m
    ensures |pts| <= m ==> Reduce(pts, m) == pts
    ensures |pts| > m ==>
      && |Reduce(pts, m)| == m
      && (forall i | 0 <= i < m :: 0 <= DownsampleIndex(i, |pts|, m) < |pts|
            && Reduce(pts, m)[i] == pts[DownsampleIndex(i, |pts|, m)])
      && (forall i, j | 0 <= i < j < m :: DownsampleIndex(i, |pts|, m) < DownsampleIndex(j, |pts|, m))
  {
    if |pts| > m {
      var n := |pts|;
      forall i | 0 <= i < m ensures 0 <= DownsampleIndex(i, n, m) < n {
        DownsampleIndexInRange(i, n, m);
      }
      forall i, j | 0 <= i < j < m ensures DownsampleIndex(i, n, m) < DownsampleIndex(j, n, m) {
        DownsampleIndexIncreasing(i, j, n, m);
      }
    }
  }

  lemma {:induction false} DownsampleIndexIncreasing(i: nat, j: nat, n: nat, m: nat)
    requires i < j && 0 < m < n
    ensures DownsampleIndex(i, n, m) < DownsampleIndex(j, n, m)
    decreases j - i
  {
    DownsampleIndexStrict(i, n, m);
    if i + 1 < j {
      DownsampleIndexIncreasing(i + 1, j, n, m);
    }
  }

  /** The thinning loop over the sampled points. */
  method Downsample(pts: seq<Vec3>, maxCount: nat) returns (reduced: seq<Vec3>)
    ensures reduced == Reduce(pts, maxCount)
  {
    if |pts| <= maxCount {
      return pts;
    }
    reduced := [];
    var i := 0;
    while i < maxCount
      invariant 0 <= i <= maxCount
      invariant reduced == Reduce(pts, maxCount)[..i]
    {
      DownsampleIndexInRange(i, |pts|, maxCount);
      reduced := reduced + [pts[DownsampleIndex(i, |pts|, maxCount)]];
      i := i + 1;
    }
  }

  /**
   * `rasterizeText` after the glyphs have been drawn: sample the raster at
   * stride `step` and thin to the particle budget.
   */
  method RasterizeText(image: seq<int>, step: nat, scale: real, maxCount: nat) returns (pts: seq<Vec3>)
    requires step > 0
    ensures |pts| <= maxCount
    ensures pts == Reduce(Points(GridCells(image, step, 0), scale), maxCount)
  {
    var all := SampleGrid(image, step, scale);
    pts := Downsample(all, maxCount);
    ReduceSelects(all, maxCount);
  }
}
