/** Arithmetic facts about row-major pixel numbering: index `k` of a grid `w`
    cells wide lies in row `k / w` and column `k % w`. Both pixel scans
    (the motion detector and the text sampler) number their cells this way. */
module RowMajor {
  import opened Types

  /** The points come strictly in scan order: by row (`y`), then by column
      (`x`). In particular no point occurs twice. */
  predicate ScanOrdered(ps: seq<Pixel>)
  {
    forall i, j :: 0 <= i < j < |ps| ==>
      ps[i].y < ps[j].y || (ps[i].y == ps[j].y && ps[i].x < ps[j].x)
  }

  /** A flat index is its row times the width plus its column. */
  lemma Decompose(k: nat, w: nat)
    requires w > 0
    ensures k == (k / w) * w + k % w && 0 <= k % w < w
  {
  }

  /** A larger flat index lies in a later row, or further right in the same row. */
  lemma Ordered(a: nat, b: nat, w: nat)
    requires w > 0 && a < b
    ensures a / w < b / w || (a / w == b / w && a % w < b % w)
  {
    Decompose(a, w);
    Decompose(b, w);
    if a / w > b / w {
      assert (a / w) * w >= (b / w + 1) * w by {
        MulMonotone(b / w + 1, a / w, w);
      }
      assert false;
    }
  }

  /** Every cell of a `w` by `h` grid has an index below `w * h`. */
  lemma Bounds(x: nat, y: nat, w: nat, h: nat)
    requires x < w && y < h
    ensures y * w + x < w * h
  {
    MulMonotone(y + 1, h, w);
  }

  /** Every index below `w * h` lies in one of the grid's `h` rows. */
  lemma RowBound(k: nat, w: nat, h: nat)
    requires w > 0 && k < w * h
    ensures k / w < h
  {
    Decompose(k, w);
    if k / w >= h {
      MulMonotone(h, k / w, w);
      assert false;
    }
  }

  lemma MulMonotone(a: nat, b: nat, w: nat)
    requires a <= b
    ensures a * w <= b * w
  {
  }
}
