/** Value types shared by the motion detector, the text sampler, the particle
    engine and the main loop. */
module Types {

  /** The conventional Some/None datatype, standing for JavaScript's `null`. */
  datatype Option<+T> = None | Some(value: T)

  /** One channel of an RGBA pixel buffer (a `Uint8ClampedArray` element). */
  type byte = b: int | 0 <= b < 256

  /** A value drawn from `Math.random()`: a real in [0, 1). */
  type Unit = r: real | 0.0 <= r < 1.0

  /** A point with integer coordinates, as produced by the pixel scans. */
  datatype Pixel = Pixel(x: int, y: int)

  /** A point in render (canvas) space. */
  datatype Point = Point(x: real, y: real)

  /** The render-space point with the same coordinates as `p`. */
  function ToPoint(p: Pixel): (q: Point)
    ensures q.x == p.x as real && q.y == p.y as real
  {
    Point(p.x as real, p.y as real)
  }

  /** The pixels of `ps`, one by one, as render-space points. */
  function ToPoints(ps: seq<Pixel>): (qs: seq<Point>)
    ensures |qs| == |ps|
    ensures forall i :: 0 <= i < |ps| ==> qs[i] == ToPoint(ps[i])
  {
    seq(|ps|, i requires 0 <= i < |ps| => ToPoint(ps[i]))
  }
}
