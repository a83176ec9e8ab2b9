/** The per-frame glue of the main loop (src/main.js): the gesture state
    machine that switches the particle engine between TEXT and FLOW mode,
    and the mapping of motion points from webcam space to canvas space. */
module App {
  import opened Types
  import Gesture
  import TextTargets
  import Particles
  import Motion

  /** What the hand tracker holds after a frame: `multiHandLandmarks`, absent
      when no hand was seen. The tracker's whole result is absent before its
      first callback. */
  datatype HandResults = HandResults(multiHandLandmarks: Option<seq<seq<Gesture.Landmark>>>)

  /** At least one hand was tracked. */
  predicate HandSeen(results: Option<HandResults>)
  {
    && results.Some?
    && results.value.multiHandLandmarks.Some?
    && |results.value.multiHandLandmarks.value| > 0
  }

  /** The tracker reports every hand with its 21 landmarks. */
  predicate CompleteHands(results: Option<HandResults>)
  {
    HandSeen(results) ==> |results.value.multiHandLandmarks.value[0]| >= Gesture.HandSize
  }

  /** The label the loop detects in a frame: the classification of the first
      tracked hand, or none when no hand was tracked. */
  function DetectedGesture(results: Option<HandResults>): (g: Option<Gesture.Label>)
    requires CompleteHands(results)
    ensures g.Some? ==> HandSeen(results)
    ensures HandSeen(results) ==> g == Gesture.Classify(Some(results.value.multiHandLandmarks.value[0]))
  {
    if HandSeen(results) then Gesture.Classify(Some(results.value.multiHandLandmarks.value[0]))
    else None
  }

  /** Only the first tracked hand matters: further hands do not change the
      detected label. */
  lemma FirstHandOnly(first: seq<Gesture.Landmark>, others: seq<seq<Gesture.Landmark>>)
    requires |first| >= Gesture.HandSize
    ensures DetectedGesture(Some(HandResults(Some([first] + others))))
         == DetectedGesture(Some(HandResults(Some([first]))))
  {
    assert ([first] + others)[0] == first;
  }

  /** The `setMode` call the transition block makes. */
  datatype ModeCall = TextMode(word: Gesture.Label) | FlowMode

  /** The label a call puts on screen (none for FLOW). */
  function Shown(c: ModeCall): Option<Gesture.Label>
  {
    match c
    case TextMode(l) => Some(l)
    case FlowMode => None
  }

  /** The call made when `detected` is seen while `current` is stored:
      none when they are equal, TEXT for a new label, FLOW when the label is
      lost. */
  function Call(current: Option<Gesture.Label>, detected: Option<Gesture.Label>): (c: Option<ModeCall>)
    ensures c.Some? <==> detected != current
    ensures c.Some? ==> Shown(c.value) == detected
  {
    if detected == current then None
    else if detected.Some? then Some(TextMode(detected.value))
    else Some(FlowMode)
  }

  /** The calls made over the detections `ds` of consecutive frames, starting
      with the stored label `current`. */
  function Calls(current: Option<Gesture.Label>, ds: seq<Option<Gesture.Label>>): seq<ModeCall>
    decreases |ds|
  {
    if ds == [] then []
    else
      var c := Call(current, ds[0]);
      (if c.Some? then [c.value] else []) + Calls(ds[0], ds[1..])
  }

  /** The stored label after the detections `ds`. */
  function Stored(current: Option<Gesture.Label>, ds: seq<Option<Gesture.Label>>): Option<Gesture.Label>
  {
    if ds == [] then current else ds[|ds| - 1]
  }

  /** Every call changes what is shown: the first differs from the label
      stored at the start, each differs from the one before, and the last
      shows the label stored at the end. There is at most one call per frame,
      and none at all exactly when the stored label never changes. */
  lemma {:induction false} CallsChange(current: Option<Gesture.Label>, ds: seq<Option<Gesture.Label>>)
    decreases |ds|
    ensures var cs := Calls(current, ds);
      && |cs| <= |ds|
      && (|cs| > 0 ==> Shown(cs[0]) != current)
      && (forall i :: 0 <= i < |cs| - 1 ==> Shown(cs[i]) != Shown(cs[i + 1]))
      && (|cs| > 0 ==> Shown(cs[|cs| - 1]) == Stored(current, ds))
      && (|cs| == 0 <==> forall i :: 0 <= i < |ds| ==> ds[i] == current)
  {
    if ds != [] {
      var rest := ds[1..];
      CallsChange(ds[0], rest);
      var c := Call(current, ds[0]);
      var tail := Calls(ds[0], rest);
      assert Stored(current, ds) == Stored(ds[0], rest);
      if c.Some? {
        assert Shown(c.value) == ds[0];
      }
      if Calls(current, ds) == [] {
        assert c.None? && tail == [];
        forall i | 0 <= i < |ds|
          ensures ds[i] == current
        {
          if i > 0 {
            assert ds[i] == rest[i - 1];
          }
        }
      }
      if forall i :: 0 <= i < |ds| ==> ds[i] == current {
        assert forall i :: 0 <= i < |rest| ==> rest[i] == ds[i + 1];
      }
    }
  }

  /** A label seen again in the next frame makes no further call. */
  lemma {:induction false} RepeatMakesNoCall(current: Option<Gesture.Label>, ds: seq<Option<Gesture.Label>>,
                                             d: Option<Gesture.Label>)
    decreases |ds|
    ensures Calls(current, ds + [d, d]) == Calls(current, ds + [d])
  {
    if ds == [] {
      assert ds + [d, d] == [d, d] && ds + [d] == [d];
      assert [d, d][1..] == [d];
      assert [d][1..] == [];
      assert Calls(d, [d]) == [];
    } else {
      assert (ds + [d, d])[1..] == ds[1..] + [d, d];
      assert (ds + [d])[1..] == ds[1..] + [d];
      RepeatMakesNoCall(ds[0], ds[1..], d);
    }
  }

  /** No hand, PEACE twice, no hand: exactly one TEXT call and then one FLOW
      call. */
  lemma PeaceThenRelease()
    ensures Calls(None, [None, Some(Gesture.Peace), Some(Gesture.Peace), None])
         == [TextMode(Gesture.Peace), FlowMode]
  {
    var ds := [None, Some(Gesture.Peace), Some(Gesture.Peace), None];
    assert ds[1..] == [Some(Gesture.Peace), Some(Gesture.Peace), None];
    assert ds[1..][1..] == [Some(Gesture.Peace), None];
    assert ds[1..][1..][1..] == [None];
  }

  /** The state of the main loop the transition block works on: the stored
      label, the text sampler and the particle engine. */
  class ModeController {
    var currentGesture: Option<Gesture.Label>
    var textGen: TextTargets.TextTargetGen
    const engine: Particles.ParticleSystem

    constructor (textGen: TextTargets.TextTargetGen, engine: Particles.ParticleSystem)
      ensures currentGesture == None && this.textGen == textGen && this.engine == engine
    {
      currentGesture := None;
      this.textGen := textGen;
      this.engine := engine;
    }

    /** One pass through the transition block with label `detected`.
        `raster` is the sampler's canvas after the label is drawn on it,
        `shuffle` the engine's random reordering of the targets, `spot` and
        `draw` its random draws for new particles. */
    method Transition(detected: Option<Gesture.Label>, raster: seq<byte>, shuffle: Particles.Shuffler,
                      spot: nat -> Particles.Spot, draw: nat -> Particles.Draw)
      requires engine.Valid()
      requires |raster| == 4 * TextTargets.PixelCount(textGen.width, textGen.height)
      modifies this, engine
      ensures engine.Valid()
      ensures currentGesture == detected && textGen == old(textGen)
      ensures engine.width == old(engine.width) && engine.height == old(engine.height)
      ensures engine.hueCycle == old(engine.hueCycle)
      ensures Call(old(currentGesture), detected) == None ==>
                engine.particles == old(engine.particles) && engine.targets == old(engine.targets)
      ensures Call(old(currentGesture), detected) == Some(FlowMode) ==>
                engine.targets == None && engine.particles == Particles.ReleaseAll(old(engine.particles))
      ensures Call(old(currentGesture), detected).Some? && Call(old(currentGesture), detected).value.TextMode? ==>
                var pts := ToPoints(TextTargets.Targets(raster, textGen.width, textGen.height));
                && engine.targets == Some(pts)
                && engine.particles
                   == Particles.Assign(Particles.Grow(old(engine.particles), |shuffle(pts)|, engine.hueCycle,
                                                      engine.width, engine.height, spot, draw),
                                       shuffle(pts), engine.hueCycle)
    {
      if detected != currentGesture {
        currentGesture := detected;
        if currentGesture.Some? {
          var targets := textGen.GenerateTargets(raster);
          var pts := ToPoints(targets);
          engine.SetMode("TEXT", pts, shuffle(pts), spot, draw);
        } else {
          engine.SetMode("FLOW", [], [], spot, draw);
        }
      }
    }
  }

  /** `canvas.width / webcam.width` (and likewise for the heights). */
  function Scale(canvasSize: nat, webcamSize: nat): (s: real)
    requires webcamSize > 0
    ensures s >= 0.0 && webcamSize as real * s == canvasSize as real
  {
    canvasSize as real / webcamSize as real
  }

  /** A motion point in webcam space, mirrored horizontally and stretched to
      the canvas. */
  function Mirror(p: Pixel, webcamWidth: nat, scaleX: real, scaleY: real): Point
  {
    Point((webcamWidth as real - p.x as real) * scaleX, p.y as real * scaleY)
  }

  /** The `map` over the raw motion points: one mapped point per raw point,
      in the same order. */
  function MapMotion(raw: seq<Pixel>, webcamWidth: nat, scaleX: real, scaleY: real): (mapped: seq<Point>)
    ensures |mapped| == |raw|
    ensures forall i :: 0 <= i < |raw| ==> mapped[i] == Mirror(raw[i], webcamWidth, scaleX, scaleY)
  {
    seq(|raw|, i requires 0 <= i < |raw| => Mirror(raw[i], webcamWidth, scaleX, scaleY))
  }

  /** A length in [0, size] of a side `size` long, scaled to a side
      `canvasSize` long, lies in [0, canvasSize], strictly below when the
      length is. */
  lemma ScaledBelow(a: real, size: nat, canvasSize: nat)
    requires size > 0 && 0.0 <= a <= size as real
    ensures 0.0 <= a * Scale(canvasSize, size) <= canvasSize as real
    ensures a < size as real && canvasSize > 0 ==> a * Scale(canvasSize, size) < canvasSize as real
  {
    var s := Scale(canvasSize, size);
    assert s >= 0.0;
    assert size as real * s == canvasSize as real;
    assert (size as real - a) * s >= 0.0;
    if a < size as real && canvasSize > 0 {
      assert s > 0.0;
      assert (size as real - a) * s > 0.0;
    }
  }

  /** A point of the W by H webcam frame lands on the C by D canvas: the
      mirrored x lies in [0, C] (C only for x = 0) and y in [0, D). */
  lemma MirrorOnCanvas(p: Pixel, webcamWidth: nat, webcamHeight: nat, canvasWidth: nat, canvasHeight: nat)
    requires webcamWidth > 0 && webcamHeight > 0 && canvasHeight > 0
    requires 0 <= p.x < webcamWidth && 0 <= p.y < webcamHeight
    ensures var q := Mirror(p, webcamWidth, Scale(canvasWidth, webcamWidth), Scale(canvasHeight, webcamHeight));
      0.0 <= q.x <= canvasWidth as real && 0.0 <= q.y < canvasHeight as real
  {
    ScaledBelow(webcamWidth as real - p.x as real, webcamWidth, canvasWidth);
    ScaledBelow(p.y as real, webcamHeight, canvasHeight);
  }

  /** Motion points of the W by H webcam frame, once mapped, lie on the C by
      D canvas. */
  lemma MappedOnCanvas(raw: seq<Pixel>, webcamWidth: nat, webcamHeight: nat, canvasWidth: nat, canvasHeight: nat)
    requires webcamWidth > 0 && webcamHeight > 0 && canvasHeight > 0
    requires forall i :: 0 <= i < |raw| ==> 0 <= raw[i].x < webcamWidth && 0 <= raw[i].y < webcamHeight
    ensures var m := MapMotion(raw, webcamWidth, Scale(canvasWidth, webcamWidth), Scale(canvasHeight, webcamHeight));
      forall i :: 0 <= i < |m| ==> 0.0 <= m[i].x <= canvasWidth as real && 0.0 <= m[i].y < canvasHeight as real
  {
    forall i | 0 <= i < |raw| {
      MirrorOnCanvas(raw[i], webcamWidth, webcamHeight, canvasWidth, canvasHeight);
    }
  }

  /** Mirroring reverses left and right: of two points, the one further left
      in the webcam frame ends up further right on the canvas. */
  lemma MirrorSwapsSides(p: Pixel, q: Pixel, webcamWidth: nat, canvasWidth: nat, scaleY: real)
    requires webcamWidth > 0 && canvasWidth > 0 && p.x < q.x
    ensures Mirror(p, webcamWidth, Scale(canvasWidth, webcamWidth), scaleY).x
          > Mirror(q, webcamWidth, Scale(canvasWidth, webcamWidth), scaleY).x
  {
    var s := Scale(canvasWidth, webcamWidth);
    assert s > 0.0;
    assert (webcamWidth as real - p.x as real) - (webcamWidth as real - q.x as real) > 0.0;
    assert (webcamWidth as real - p.x as real) * s - (webcamWidth as real - q.x as real) * s
        == ((webcamWidth as real - p.x as real) - (webcamWidth as real - q.x as real)) * s;
  }

  /** The motion a detector built for a W by H webcam reports, once mapped,
      lies on the C by D canvas. */
  lemma MotionOnCanvas(prev: seq<byte>, cur: seq<byte>, webcamWidth: nat, webcamHeight: nat,
                       canvasWidth: nat, canvasHeight: nat)
    requires webcamWidth >= 10 && webcamHeight > 0 && canvasHeight > 0
    requires var w, h := webcamWidth / 10, webcamHeight / 10;
      4 * (w * h) <= |prev| && 4 * (w * h) <= |cur|
    ensures var w, h := webcamWidth / 10, webcamHeight / 10;
      var m := MapMotion(Motion.MotionPoints(prev, cur, w, w * h), webcamWidth,
                         Scale(canvasWidth, webcamWidth), Scale(canvasHeight, webcamHeight));
      forall i :: 0 <= i < |m| ==> 0.0 <= m[i].x <= canvasWidth as real && 0.0 <= m[i].y < canvasHeight as real
  {
    var w, h := webcamWidth / 10, webcamHeight / 10;
    var ps := Motion.MotionPoints(prev, cur, w, w * h);
    Motion.MotionPointsInFrame(prev, cur, w, h);
    assert forall i :: 0 <= i < |ps| ==> ps[i] in ps;
    MappedOnCanvas(ps, webcamWidth, webcamHeight, canvasWidth, canvasHeight);
  }
}
