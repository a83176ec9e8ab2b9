/** The frame-difference motion detector (src/motion.js).

    The detector works on a buffer a tenth of the source resolution (the
    source multiplies by 0.1 and divides by 0.1; here that is division and
    multiplication by 10) and keeps the previous low-resolution RGBA frame. Each call
    compares the new frame with it pixel by pixel, reports the pixels whose
    red, green and blue channels changed by more than 100 in total, and then
    keeps the new frame for the next call. The downsampling `drawImage` and
    `getImageData` calls are canvas operations; the model receives the
    resulting RGBA buffer as the argument of `Detect`. */
module Motion {
  import opened Types
  import RowMajor

  /** Motion threshold on the summed absolute R, G and B differences. */
  const Threshold: nat := 100

  function AbsDiff(a: int, b: int): (d: nat)
    ensures d == a - b || d == b - a
  {
    if a >= b then a - b else b - a
  }

  /** Summed absolute R, G and B differences of pixel `k`; alpha is ignored. */
  function ColourDistance(prev: seq<byte>, cur: seq<byte>, k: nat): nat
    requires 4 * k + 3 < |prev| && 4 * k + 3 < |cur|
  {
    AbsDiff(cur[4 * k], prev[4 * k])
    + AbsDiff(cur[4 * k + 1], prev[4 * k + 1])
    + AbsDiff(cur[4 * k + 2], prev[4 * k + 2])
  }

  predicate Moved(prev: seq<byte>, cur: seq<byte>, k: nat)
    requires 4 * k + 3 < |prev| && 4 * k + 3 < |cur|
  {
    ColourDistance(prev, cur, k) > Threshold
  }

  /** The indices of the pixels among the first `n` that moved, in increasing
      order. */
  function MovedPixels(prev: seq<byte>, cur: seq<byte>, n: nat): seq<nat>
    requires 4 * n <= |prev| && 4 * n <= |cur|
  {
    if n == 0 then []
    else MovedPixels(prev, cur, n - 1) + (if Moved(prev, cur, n - 1) then [n - 1] else [])
  }

  /** The moved pixels among the first `n` are exactly those whose colour
      distance exceeds the threshold, each listed once, in increasing order. */
  lemma MovedPixelsFacts(prev: seq<byte>, cur: seq<byte>, n: nat)
    requires 4 * n <= |prev| && 4 * n <= |cur|
    ensures var ks := MovedPixels(prev, cur, n);
      && (forall k: nat :: k in ks <==> k < n && Moved(prev, cur, k))
      && (forall i :: 0 <= i < |ks| ==> ks[i] < n)
      && (forall i, j :: 0 <= i < j < |ks| ==> ks[i] < ks[j])
      && |ks| <= n
  {
    MovedPixelsMembers(prev, cur, n);
    MovedPixelsSorted(prev, cur, n);
  }

  lemma {:induction false} MovedPixelsMembers(prev: seq<byte>, cur: seq<byte>, n: nat)
    requires 4 * n <= |prev| && 4 * n <= |cur|
    ensures forall k: nat :: k in MovedPixels(prev, cur, n) <==> k < n && Moved(prev, cur, k)
  {
    if n > 0 {
      MovedPixelsMembers(prev, cur, n - 1);
    }
  }

  lemma {:induction false} MovedPixelsSorted(prev: seq<byte>, cur: seq<byte>, n: nat)
    requires 4 * n <= |prev| && 4 * n <= |cur|
    ensures var ks := MovedPixels(prev, cur, n);
      && (forall i :: 0 <= i < |ks| ==> ks[i] < n)
      && (forall i, j :: 0 <= i < j < |ks| ==> ks[i] < ks[j])
      && |ks| <= n
  {
    if n > 0 {
      MovedPixelsSorted(prev, cur, n - 1);
    }
  }

  /** The source-resolution location reported for pixel `k` of a buffer `w`
      pixels wide: its column and row, scaled back up. */
  function PointOf(k: nat, w: nat): Pixel
    requires w > 0
  {
    Pixel((k % w) * 10, (k / w) * 10)
  }

  /** What one comparison of `cur` against `prev` reports for the first `n`
      pixels of a buffer `w` pixels wide, in scan order. */
  function MotionPoints(prev: seq<byte>, cur: seq<byte>, w: nat, n: nat): (ps: seq<Pixel>)
    requires 4 * n <= |prev| && 4 * n <= |cur|
    requires w > 0 || n == 0
  {
    var ks := MovedPixels(prev, cur, n);
    seq(|ks|, i requires 0 <= i < |ks| => PointOf(ks[i], w))
  }

  lemma MotionPointsNext(prev: seq<byte>, cur: seq<byte>, w: nat, n: nat)
    requires 4 * (n + 1) <= |prev| && 4 * (n + 1) <= |cur| && w > 0
    ensures MotionPoints(prev, cur, w, n + 1)
         == MotionPoints(prev, cur, w, n)
            + (if Moved(prev, cur, n) then [PointOf(n, w)] else [])
  {
  }

  /** A non-empty buffer has a positive width. */
  lemma PositiveWidth(w: nat, h: nat)
    requires w * h > 0
    ensures w > 0
  {
  }

  /** The detector's loop moves from the 4 bytes of pixel `i / 4` to those
      of the next pixel. */
  lemma PixelStep(i: nat, n: nat)
    requires i % 4 == 0 && i < 4 * n
    ensures i + 3 < 4 * n && (i + 4) % 4 == 0 && (i + 4) / 4 == i / 4 + 1
    ensures 4 * (i / 4 + 1) <= 4 * n && i == 4 * (i / 4)
  {
  }

  class MotionDetector {
    /** Source (video) resolution given at construction. */
    const width: nat
    const height: nat
    /** Size of the low-resolution buffer, fixed for the detector's lifetime. */
    const w: nat
    const h: nat
    /** The previous low-resolution RGBA frame, absent before the first call. */
    var prevFrame: Option<seq<byte>>

    ghost predicate Valid()
      reads this
    {
      && w == width / 10
      && h == height / 10
      && (prevFrame.Some? ==> |prevFrame.value| == 4 * (w * h))
    }

    constructor (width: nat, height: nat)
      ensures Valid()
      ensures this.width == width && this.height == height
      ensures w == width / 10 && h == height / 10
      ensures prevFrame == None
    {
      this.width := width;
      this.height := height;
      w := width / 10;
      h := height / 10;
      prevFrame := None;
    }

    /** Compares `frame` (the current frame drawn into the `w` by `h` buffer)
        with the stored one and then stores `frame` in its place. */
    method Detect(frame: seq<byte>) returns (points: seq<Pixel>)
      requires Valid() && |frame| == 4 * (w * h)
      modifies this
      ensures Valid()
      ensures prevFrame == Some(frame)
      ensures old(prevFrame).None? ==> points == []
      ensures old(prevFrame).Some? ==>
                points == MotionPoints(old(prevFrame).value, frame, w, w * h)
    {
      var len := |frame|;
      points := [];
      if prevFrame.Some? {
        var prev := prevFrame.value;
        ghost var n := w * h;
        if len > 0 {
          PositiveWidth(w, h);
        }
        var i := 0;
        while i < len
          invariant i % 4 == 0 && 0 <= i <= len
          invariant points == MotionPoints(prev, frame, w, i / 4)
        {
          PixelStep(i, n);
          var rDiff := AbsDiff(frame[i], prev[i]);
          var gDiff := AbsDiff(frame[i + 1], prev[i + 1]);
          var bDiff := AbsDiff(frame[i + 2], prev[i + 2]);
          MotionPointsNext(prev, frame, w, i / 4);
          if rDiff + gDiff + bDiff > Threshold {
            var pixelIndex := i / 4;
            var x := (pixelIndex % w) * 10;
            var y := (pixelIndex / w) * 10;
            points := points + [Pixel(x, y)];
          }
          i := i + 4;
        }
      }
      prevFrame := Some(frame);
    }
  }

  /** Two identical consecutive frames report no motion. */
  lemma {:induction false} StillFrameNoMotion(f: seq<byte>, w: nat, n: nat)
    requires 4 * n <= |f| && (w > 0 || n == 0)
    ensures MotionPoints(f, f, w, n) == []
  {
    if n > 0 {
      StillFrameNoMotion(f, w, n - 1);
      assert ColourDistance(f, f, n - 1) == 0;
    }
  }

  /** Distinct pixels are reported at distinct locations, in scan order. */
  lemma PointOfOrdered(a: nat, b: nat, w: nat)
    requires w > 0 && a < b
    ensures PointOf(a, w).y < PointOf(b, w).y
            || (PointOf(a, w).y == PointOf(b, w).y && PointOf(a, w).x < PointOf(b, w).x)
  {
    RowMajor.Ordered(a, b, w);
  }

  /** The reported points come strictly in scan order, at most one per
      buffer pixel. */
  lemma MotionPointsOrdered(prev: seq<byte>, cur: seq<byte>, w: nat, h: nat)
    requires 4 * (w * h) <= |prev| && 4 * (w * h) <= |cur|
    requires w > 0 || w * h == 0
    ensures |MotionPoints(prev, cur, w, w * h)| <= w * h
    ensures RowMajor.ScanOrdered(MotionPoints(prev, cur, w, w * h))
  {
    var ks := MovedPixels(prev, cur, w * h);
    var ps := MotionPoints(prev, cur, w, w * h);
    MovedPixelsFacts(prev, cur, w * h);
    forall i, j | 0 <= i < j < |ps|
      ensures ps[i].y < ps[j].y || (ps[i].y == ps[j].y && ps[i].x < ps[j].x)
    {
      PointOfOrdered(ks[i], ks[j], w);
    }
  }

  /** The reported points lie on the grid of buffer pixels scaled up by 10,
      inside the 10w by 10h source area. */
  lemma MotionPointsInFrame(prev: seq<byte>, cur: seq<byte>, w: nat, h: nat)
    requires 4 * (w * h) <= |prev| && 4 * (w * h) <= |cur|
    requires w > 0 || w * h == 0
    ensures forall p :: p in MotionPoints(prev, cur, w, w * h) ==>
              && p.x % 10 == 0 && p.y % 10 == 0
              && 0 <= p.x < 10 * w && 0 <= p.y < 10 * h
  {
    var ks := MovedPixels(prev, cur, w * h);
    var ps := MotionPoints(prev, cur, w, w * h);
    MovedPixelsFacts(prev, cur, w * h);
    forall p | p in ps
      ensures p.x % 10 == 0 && p.y % 10 == 0
      ensures 0 <= p.x < 10 * w && 0 <= p.y < 10 * h
    {
      var i :| 0 <= i < |ps| && ps[i] == p;
      PointOfInFrame(ks[i], w, h);
    }
  }

  /** The location reported for a pixel of a `w` by `h` buffer. */
  lemma PointOfInFrame(k: nat, w: nat, h: nat)
    requires w > 0 && k < w * h
    ensures var p := PointOf(k, w);
      && p.x % 10 == 0 && p.y % 10 == 0
      && 0 <= p.x < 10 * w && 0 <= p.y < 10 * h
  {
    RowMajor.RowBound(k, w, h);
    var col, row := k % w, k / w;
    assert col < w && row < h;
    assert col * 10 < 10 * w;
    assert row * 10 < 10 * h;
  }

  /** Buffer pixel `k` is reported exactly when its summed R, G and B change
      exceeds the threshold. */
  lemma MotionPointsExact(prev: seq<byte>, cur: seq<byte>, w: nat, h: nat, k: nat)
    requires 4 * (w * h) <= |prev| && 4 * (w * h) <= |cur|
    requires w > 0 && k < w * h
    ensures PointOf(k, w) in MotionPoints(prev, cur, w, w * h) <==> Moved(prev, cur, k)
  {
    var ks := MovedPixels(prev, cur, w * h);
    var ps := MotionPoints(prev, cur, w, w * h);
    MovedPixelsFacts(prev, cur, w * h);
    if Moved(prev, cur, k) {
      assert k in ks;
      var i :| 0 <= i < |ks| && ks[i] == k;
      assert ps[i] == PointOf(k, w);
    }
    if PointOf(k, w) in ps {
      var i :| 0 <= i < |ps| && ps[i] == PointOf(k, w);
      assert ks[i] in ks;
      if ks[i] < k {
        PointOfOrdered(ks[i], k, w);
      } else if ks[i] > k {
        PointOfOrdered(k, ks[i], w);
      }
    }
  }
}
