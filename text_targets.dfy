/** The text target sampler (src/text-targets.js).

    `generateTargets` draws the label into an offscreen canvas of the render
    size and then scans that canvas on an 8-pixel grid, row by row, keeping
    every grid point whose alpha exceeds 128. Drawing the glyphs
    (`clearRect`, `fillText`) and reading them back (`getImageData`) are
    canvas operations: the model receives the RGBA buffer they produce and
    models the scan. */
module TextTargets {
  import opened Types
  import RowMajor

  /** A grid point is kept when its alpha exceeds this value. */
  const AlphaThreshold: nat := 128

  /** Number of grid lines the scan visits along an axis of `n` pixels (the
      multiples of 8 below `n`): the ceiling of n / 8. */
  function GridLines(n: nat): (k: nat)
    ensures 8 * k >= n && (k > 0 ==> 8 * (k - 1) < n)
  {
    (n + 8 - 1) / 8
  }

  /** Index of canvas pixel (x, y) in a canvas `width` pixels wide, counted
      row by row: y * width + x (see `OffsetIs`). */
  function Offset(x: nat, y: nat, width: nat): nat
  {
    if y == 0 then x else Offset(x, y - 1, width) + width
  }

  lemma {:induction false} OffsetIs(x: nat, y: nat, width: nat)
    ensures Offset(x, y, width) == y * width + x
  {
    if y > 0 {
      OffsetIs(x, y - 1, width);
    }
  }

  /** Number of pixels of a `width` by `height` canvas: width * height (see
      `PixelCountIs`), counted row by row. */
  function PixelCount(width: nat, height: nat): nat
  {
    if height == 0 then 0 else PixelCount(width, height - 1) + width
  }

  lemma {:induction false} PixelCountIs(width: nat, height: nat)
    ensures PixelCount(width, height) == width * height
  {
    if height > 0 {
      PixelCountIs(width, height - 1);
    }
  }

  /** Every pixel of the canvas lies inside its buffer. */
  lemma {:induction false} OffsetInCanvas(x: nat, y: nat, width: nat, height: nat)
    requires x < width && y < height
    ensures Offset(x, y, width) < PixelCount(width, height)
  {
    if y + 1 < height {
      OffsetInCanvas(x, y, width, height - 1);
    } else if y > 0 {
      OffsetInCanvas(x, y - 1, width, height - 1);
    }
  }

  /** Canvas pixel (x, y) is covered by the rendered glyphs: its alpha byte,
      at offset 4 * (y * width + x) + 3, exceeds 128. Outside the buffer
      JavaScript reads `undefined`, which is not greater than 128. */
  predicate Inked(data: seq<byte>, width: nat, x: nat, y: nat)
  {
    var i := Offset(x, y, width) * 4 + 3;
    i < |data| && data[i] > AlphaThreshold
  }

  /** `p` is a point of the 8-pixel grid strictly left of column `x` and
      strictly above row `y`, inside the `width` by `height` canvas. */
  predicate OnGridBefore(p: Pixel, width: nat, height: nat, x: int, y: int)
  {
    && p.x % 8 == 0 && p.y % 8 == 0
    && 0 <= p.x < width && p.x < x
    && 0 <= p.y < height && p.y < y
  }

  /** The points the inner loop collects from row `y` before reaching
      column `x`, in the order it collects them. */
  function RowScan(data: seq<byte>, width: nat, y: nat, x: nat): seq<Pixel>
    requires x % 8 == 0
  {
    if x == 0 then []
    else
      RowScan(data, width, y, x - 8)
      + (if Inked(data, width, x - 8, y) then [Pixel(x - 8, y)] else [])
  }

  /** The points the outer loop collects from the rows above row `y`. */
  function Scan(data: seq<byte>, width: nat, y: nat): seq<Pixel>
    requires y % 8 == 0
  {
    if y == 0 then []
    else Scan(data, width, y - 8) + RowScan(data, width, y - 8, 8 * GridLines(width))
  }

  /** The targets `generateTargets` returns for the canvas content `data`. */
  function Targets(data: seq<byte>, width: nat, height: nat): seq<Pixel>
  {
    Scan(data, width, 8 * GridLines(height))
  }

  /** The scan of row `y` up to column `x` collects exactly the inked grid
      points of that row left of `x`, from left to right, at most one per
      grid column. */
  lemma RowScanFacts(data: seq<byte>, width: nat, height: nat, y: nat, x: nat)
    requires y < height && y % 8 == 0
    requires x % 8 == 0 && x <= 8 * GridLines(width)
    ensures var ps := RowScan(data, width, y, x);
      && (forall p :: p in ps <==>
            OnGridBefore(p, width, height, x, y + 1) && p.y == y && Inked(data, width, p.x, p.y))
      && (forall i, j :: 0 <= i < j < |ps| ==> ps[i].y == ps[j].y && ps[i].x < ps[j].x)
      && |ps| <= x / 8
  {
    RowScanMembers(data, width, height, y, x);
    RowScanSorted(data, width, y, x);
  }

  lemma {:induction false} RowScanMembers(data: seq<byte>, width: nat, height: nat, y: nat, x: nat)
    requires y < height && y % 8 == 0
    requires x % 8 == 0 && x <= 8 * GridLines(width)
    ensures forall p :: p in RowScan(data, width, y, x) <==>
              OnGridBefore(p, width, height, x, y + 1) && p.y == y && Inked(data, width, p.x, p.y)
  {
    if x > 0 {
      RowScanMembers(data, width, height, y, x - 8);
      forall p: Pixel | p.x % 8 == 0 && p.x < x
        ensures p.x < x - 8 || p.x == x - 8
      {
        GridStep(p.x, x);
      }
    }
  }

  lemma {:induction false} RowScanSorted(data: seq<byte>, width: nat, y: nat, x: nat)
    requires x % 8 == 0
    ensures var ps := RowScan(data, width, y, x);
      && (forall i :: 0 <= i < |ps| ==> ps[i].y == y && ps[i].x < x)
      && (forall i, j :: 0 <= i < j < |ps| ==> ps[i].y == ps[j].y && ps[i].x < ps[j].x)
      && |ps| <= x / 8
  {
    if x > 0 {
      RowScanSorted(data, width, y, x - 8);
      var ps := RowScan(data, width, y, x - 8);
      var tail := if Inked(data, width, x - 8, y) then [Pixel(x - 8, y)] else [];
      var all := ps + tail;
      assert forall i :: 0 <= i < |tail| ==> tail[i] == Pixel(x - 8, y);
      assert forall i :: 0 <= i < |all| ==> all[i] == if i < |ps| then ps[i] else tail[i - |ps|];
    }
  }

  /** Joining the points of earlier rows and the points of one later row
      keeps scan order. */
  lemma RowsOrdered(above: seq<Pixel>, row: seq<Pixel>, y: int)
    requires RowMajor.ScanOrdered(above)
    requires forall p :: p in above ==> p.y < y
    requires forall i, j :: 0 <= i < j < |row| ==> row[i].y == row[j].y && row[i].x < row[j].x
    requires forall p :: p in row ==> p.y == y
    ensures RowMajor.ScanOrdered(above + row)
  {
    var s := above + row;
    forall i, j | 0 <= i < j < |s|
      ensures s[i].y < s[j].y || (s[i].y == s[j].y && s[i].x < s[j].x)
    {
      if j < |above| {
      } else if i < |above| {
        assert s[i] in above && s[j] in row;
      } else {
        assert s[i] == row[i - |above|] && s[j] == row[j - |above|];
      }
    }
  }

  /** Between two consecutive multiples of 8 there is no multiple of 8. */
  lemma GridStep(a: int, y: int)
    requires a % 8 == 0 && y % 8 == 0 && a < y
    ensures a <= y - 8
  {
  }

  /** The scan of the rows above `y` collects exactly the inked grid points
      above `y`, strictly in scan order. */
  lemma {:induction false} ScanFacts(data: seq<byte>, width: nat, height: nat, y: nat)
    requires y % 8 == 0 && y <= 8 * GridLines(height)
    ensures forall p :: p in Scan(data, width, y) <==>
              OnGridBefore(p, width, height, width, y) && Inked(data, width, p.x, p.y)
    ensures RowMajor.ScanOrdered(Scan(data, width, y))
  {
    if y > 0 {
      ScanFacts(data, width, height, y - 8);
      RowScanFacts(data, width, height, y - 8, 8 * GridLines(width));
      forall p: Pixel | p.y % 8 == 0 && p.y < y
        ensures p.y < y - 8 || p.y == y - 8
      {
        GridStep(p.y, y);
      }
      RowsOrdered(Scan(data, width, y - 8),
                  RowScan(data, width, y - 8, 8 * GridLines(width)), y - 8);
    }
  }

  /** The targets are exactly the inked points of the 8-pixel grid of the
      `width` by `height` canvas, strictly in scan order (so without
      duplicates). */
  lemma TargetsInked(data: seq<byte>, width: nat, height: nat)
    ensures forall p :: p in Targets(data, width, height) <==>
              && p.x % 8 == 0 && p.y % 8 == 0
              && 0 <= p.x < width && 0 <= p.y < height
              && Inked(data, width, p.x, p.y)
    ensures RowMajor.ScanOrdered(Targets(data, width, height))
  {
    ScanFacts(data, width, height, 8 * GridLines(height));
  }

  class TextTargetGen {
    /** Render size; a resize builds a new generator. */
    const width: nat
    const height: nat

    constructor (width: nat, height: nat)
      ensures this.width == width && this.height == height
    {
      this.width := width;
      this.height := height;
    }

    /** Scans `data`, the RGBA buffer of the label drawn onto this
        generator's canvas, for target points. */
    method GenerateTargets(data: seq<byte>) returns (targets: seq<Pixel>)
      requires |data| == 4 * PixelCount(width, height)
      ensures targets == Targets(data, width, height)
    {
      targets := [];
      var y := 0;
      while y < height
        invariant y % 8 == 0 && y <= 8 * GridLines(height)
        invariant targets == Scan(data, width, y)
      {
        ghost var above := targets;
        var x := 0;
        while x < width
          invariant x % 8 == 0 && x <= 8 * GridLines(width)
          invariant targets == above + RowScan(data, width, y, x)
        {
          ScanCell(data, width, height, x, y);
          var index := (y * width + x) * 4;
          if data[index + 3] > AlphaThreshold {
            targets := targets + [Pixel(x, y)];
          }
          x := x + 8;
        }
        GridEnd(x, width);
        ScanRowDone(data, width, height, y);
        y := y + 8;
      }
      GridEnd(y, height);
    }
  }

  /** One step of the inner loop: the byte it reads for (x, y) is that
      pixel's alpha, and the row scan grows by (x, y) exactly when it is
      inked. */
  lemma ScanCell(data: seq<byte>, width: nat, height: nat, x: nat, y: nat)
    requires |data| == 4 * PixelCount(width, height)
    requires x % 8 == 0 && y % 8 == 0 && x < width && y < height
    ensures 8 * GridLines(width) >= x + 8 && (x + 8) % 8 == 0
    ensures 0 <= (y * width + x) * 4 && (y * width + x) * 4 + 3 < |data|
    ensures data[(y * width + x) * 4 + 3] > AlphaThreshold <==> Inked(data, width, x, y)
    ensures RowScan(data, width, y, x + 8)
         == RowScan(data, width, y, x)
            + (if Inked(data, width, x, y) then [Pixel(x, y)] else [])
  {
    OffsetIs(x, y, width);
    OffsetInCanvas(x, y, width, height);
  }

  /** A scan along an axis of `n` pixels stops at the grid line after the
      last one it visits. */
  lemma GridEnd(z: nat, n: nat)
    requires z % 8 == 0 && n <= z <= 8 * GridLines(n)
    ensures z == 8 * GridLines(n)
  {
    if z < 8 * GridLines(n) {
      GridStep(z, 8 * GridLines(n));
    }
  }

  /** One step of the outer loop: a finished row extends the scan. */
  lemma ScanRowDone(data: seq<byte>, width: nat, height: nat, y: nat)
    requires y % 8 == 0 && y < height
    ensures 8 * GridLines(height) >= y + 8 && (y + 8) % 8 == 0
    ensures Scan(data, width, y + 8)
         == Scan(data, width, y) + RowScan(data, width, y, 8 * GridLines(width))
  {
  }

  /** The scan of the rows above `y` finds at most one point per grid
      point: at most ceil(width / 8) per row. */
  lemma {:induction false} ScanBound(data: seq<byte>, width: nat, height: nat, y: nat)
    requires y % 8 == 0 && y <= 8 * GridLines(height)
    ensures |Scan(data, width, y)| <= PixelCount(GridLines(width), y / 8)
  {
    if y > 0 {
      ScanBound(data, width, height, y - 8);
      RowScanFacts(data, width, height, y - 8, 8 * GridLines(width));
      assert y / 8 == (y - 8) / 8 + 1;
    }
  }

  /** There are at most ceil(width / 8) * ceil(height / 8) targets. */
  lemma TargetsBound(data: seq<byte>, width: nat, height: nat)
    ensures |Targets(data, width, height)| <= GridLines(width) * GridLines(height)
  {
    ScanBound(data, width, height, 8 * GridLines(height));
    PixelCountIs(GridLines(width), GridLines(height));
  }

  /** Grid point (x, y) of the canvas is a target exactly when the alpha byte
      at (y * width + x) * 4 + 3 exceeds 128. */
  lemma TargetsExact(data: seq<byte>, width: nat, height: nat, x: nat, y: nat)
    requires |data| == 4 * (width * height)
    requires x % 8 == 0 && y % 8 == 0 && x < width && y < height
    ensures 0 <= (y * width + x) * 4 + 3 < |data|
    ensures Pixel(x, y) in Targets(data, width, height)
            <==> data[(y * width + x) * 4 + 3] > AlphaThreshold
  {
    TargetsInked(data, width, height);
    RowMajor.Bounds(x, y, width, height);
    OffsetIs(x, y, width);
  }

  /** A canvas with no alpha above 128 (a fully transparent one, say) yields
      no targets. */
  lemma TransparentNoTargets(data: seq<byte>, width: nat, height: nat)
    requires forall i :: 0 <= i < |data| && i % 4 == 3 ==> data[i] <= AlphaThreshold
    ensures Targets(data, width, height) == []
  {
    var ps := Targets(data, width, height);
    TargetsInked(data, width, height);
    assert ps != [] ==> ps[0] in ps;
    forall p: Pixel | p.x >= 0 && p.y >= 0
      ensures !Inked(data, width, p.x, p.y)
    {
      var i := Offset(p.x, p.y, width) * 4 + 3;
      assert i % 4 == 3;
    }
  }
}
