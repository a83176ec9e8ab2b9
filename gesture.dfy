/** The hand-pose classifier (src/gesture.js).

    A hand is the list of 21 landmarks the hand tracker reports, in image
    coordinates where y grows downwards. A finger is up when its tip lies
    strictly higher (smaller y) than its knuckle; the thumb is compared with
    the index knuckle. The classifier maps the five up/down flags to one of
    six labels, or to none. */
module Gesture {
  import opened Types

  datatype Landmark = Landmark(x: real, y: real, z: real)

  /** The labels `classify` returns ("LIKE", "POWER", "FLOW", "PEACE",
      "ROCK", "LOVE"). */
  datatype Label = Like | Power | Flow | Peace | Rock | Love

  /** Number of landmarks of a tracked hand. */
  const HandSize: nat := 21

  /** Landmark indices of the thumb tip and of the tip and knuckle (MCP) of
      each finger. */
  const ThumbTip: nat := 4
  const IndexMcp: nat := 5
  const IndexTip: nat := 8
  const MiddleMcp: nat := 9
  const MiddleTip: nat := 12
  const RingMcp: nat := 13
  const RingTip: nat := 16
  const PinkyMcp: nat := 17
  const PinkyTip: nat := 20

  /** Landmark `tip` lies strictly above landmark `mcp`. */
  predicate Above(hand: seq<Landmark>, tip: nat, mcp: nat)
    requires tip < |hand| && mcp < |hand|
  {
    hand[tip].y < hand[mcp].y
  }

  /** Which digits of a hand are up. */
  datatype Fingers = Fingers(index: bool, middle: bool, ring: bool, pinky: bool, thumb: bool)

  function Read(hand: seq<Landmark>): Fingers
    requires |hand| >= HandSize
  {
    Fingers(Above(hand, IndexTip, IndexMcp), Above(hand, MiddleTip, MiddleMcp),
            Above(hand, RingTip, RingMcp), Above(hand, PinkyTip, PinkyMcp),
            Above(hand, ThumbTip, IndexMcp))
  }

  /** The number of true flags (`filter(Boolean).length`). */
  function CountUp(flags: seq<bool>): (n: nat)
    ensures n <= |flags|
    ensures n == 0 <==> forall i :: 0 <= i < |flags| ==> !flags[i]
    ensures n == |flags| <==> forall i :: 0 <= i < |flags| ==> flags[i]
  {
    if flags == [] then 0
    else CountUp(flags[1..]) + (if flags[0] then 1 else 0)
  }

  /** The label of a hand, or `None` for a missing hand or an unknown pose.
      The source indexes the landmarks up to 20, so a present hand has all
      21 of them. The labels are characterised by the finger pattern alone:
      no finger up gives LIKE with the thumb up and POWER otherwise; all four
      fingers up give FLOW; index and middle alone give PEACE; index and
      pinky alone give LOVE with the thumb up and ROCK otherwise; every other
      pattern gives none. */
  function Classify(landmarks: Option<seq<Landmark>>): (r: Option<Label>)
    requires landmarks.Some? ==> |landmarks.value| >= HandSize
    ensures landmarks.None? ==> r == None
    ensures landmarks.Some? ==> var f := Read(landmarks.value);
      && (r == Some(Like) <==> !f.index && !f.middle && !f.ring && !f.pinky && f.thumb)
      && (r == Some(Power) <==> !f.index && !f.middle && !f.ring && !f.pinky && !f.thumb)
      && (r == Some(Flow) <==> f.index && f.middle && f.ring && f.pinky)
      && (r == Some(Peace) <==> f.index && f.middle && !f.ring && !f.pinky)
      && (r == Some(Love) <==> f.index && !f.middle && !f.ring && f.pinky && f.thumb)
      && (r == Some(Rock) <==> f.index && !f.middle && !f.ring && f.pinky && !f.thumb)
  {
    match landmarks
    case None => None
    case Some(hand) =>
      var f := Read(hand);
      var flags := [f.index, f.middle, f.ring, f.pinky];
      assert flags[0] == f.index && flags[1] == f.middle && flags[2] == f.ring && flags[3] == f.pinky;
      var fingerCount := CountUp(flags);
      if fingerCount == 0 then
        if f.thumb then Some(Like) else Some(Power)
      else if fingerCount == 4 then Some(Flow)
      else if f.index && f.middle && !f.ring && !f.pinky then Some(Peace)
      else if f.index && f.pinky && !f.middle && !f.ring then
        if f.thumb then Some(Love) else Some(Rock)
      else None
  }

  /** A present hand gets no label exactly when its pose is none of the six
      patterns above. */
  lemma UnknownPose(hand: seq<Landmark>)
    requires |hand| >= HandSize
    ensures var f := Read(hand);
      Classify(Some(hand)) == None <==>
        && (f.index || f.middle || f.ring || f.pinky)
        && !(f.index && f.middle && f.ring && f.pinky)
        && !(f.index && f.middle && !f.ring && !f.pinky)
        && !(f.index && !f.middle && !f.ring && f.pinky)
  {
    var r := Classify(Some(hand));
    if r.Some? {
      match r.value
      case Like =>
      case Power =>
      case Flow =>
      case Peace =>
      case Rock =>
      case Love =>
    }
  }

  /** `classify` looks only at the y coordinates of landmarks 4, 5, 8, 9,
      12, 13, 16, 17 and 20. */
  lemma DependsOnKeyHeights(a: seq<Landmark>, b: seq<Landmark>)
    requires |a| >= HandSize && |b| >= HandSize
    requires forall k :: k in {ThumbTip, IndexMcp, IndexTip, MiddleMcp, MiddleTip, RingMcp, RingTip, PinkyMcp, PinkyTip}
               ==> a[k].y == b[k].y
    ensures Classify(Some(a)) == Classify(Some(b))
  {
    assert Read(a) == Read(b);
  }
}
