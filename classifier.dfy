/** The geometric gesture classifier of the hand controller: one hand's
    landmarks in, at most one gesture out. Pure and total. */
module GestureClassifier {

  datatype Option<+T> = None | Some(value: T)

  /** A landmark in normalised image coordinates (smaller y is higher up). */
  datatype Point = Point(x: real, y: real, z: real)

  /** The two joints of a finger the classifier looks at: the tip, and the
      joint it is compared with (the PIP joint; for the thumb, its IP joint). */
  datatype Finger = Finger(tip: Point, pip: Point)

  /** The landmarks of one detected hand that enter a decision. */
  datatype Hand = Hand(thumb: Finger, index: Finger, middle: Finger, ring: Finger, pinky: Finger)

  datatype Gesture = VSign | Like | Ok | Call | Wave

  /** Thumb tip and index tip closer than this (3D distance) make a pinch. */
  const OkPinchThreshold: real := 0.05
  /** Index tip must lie further right than the pinky tip by more than this. */
  const WaveSpreadThreshold: real := 0.2

  /** A finger is up when its tip's y is numerically less than its
      reference joint's y: a level tip is not up, and of a finger and the
      same finger with tip and joint exchanged at most one is up. */
  predicate IsUp(f: Finger)
    ensures f.tip.y == f.pip.y ==> !IsUp(f)
    ensures IsUp(f) ==> !(f.pip.y < f.tip.y)
  {
    f.tip.y < f.pip.y
  }

  /** Squared 3D distance between thumb tip and index tip: never negative,
      and at least the square of the gap along any one axis. */
  function ThumbIndexDistanceSq(h: Hand): (d: real)
    ensures d >= 0.0
    ensures Sq(h.thumb.tip.x - h.index.tip.x) <= d
    ensures Sq(h.thumb.tip.y - h.index.tip.y) <= d
    ensures Sq(h.thumb.tip.z - h.index.tip.z) <= d
  {
    Sq(h.thumb.tip.x - h.index.tip.x) + Sq(h.thumb.tip.y - h.index.tip.y) + Sq(h.thumb.tip.z - h.index.tip.z)
  }

  function Sq(a: real): (r: real)
    ensures r >= 0.0
  {
    a * a
  }

  /** The pinch test, on squared distances so that no square root is needed.
      Touching tips always pinch, and a pinch keeps the tips closer than the
      threshold along each axis. */
  predicate Pinched(h: Hand)
    ensures h.thumb.tip == h.index.tip ==> Pinched(h)
    ensures Pinched(h) ==> AxisClose(h.thumb.tip.x, h.index.tip.x)
    ensures Pinched(h) ==> AxisClose(h.thumb.tip.y, h.index.tip.y)
    ensures Pinched(h) ==> AxisClose(h.thumb.tip.z, h.index.tip.z)
  {
    SqBelowSq(h.thumb.tip.x - h.index.tip.x, OkPinchThreshold);
    SqBelowSq(h.thumb.tip.y - h.index.tip.y, OkPinchThreshold);
    SqBelowSq(h.thumb.tip.z - h.index.tip.z, OkPinchThreshold);
    ThumbIndexDistanceSq(h) < OkPinchThreshold * OkPinchThreshold
  }

  /** Two coordinates less than the pinch threshold apart. */
  predicate AxisClose(a: real, b: real) {
    -OkPinchThreshold < a - b < OkPinchThreshold
  }

  lemma SqBelowSq(a: real, t: real)
    requires t > 0.0
    ensures Sq(a) < t * t ==> -t < a < t
  {
  }

  /** Signed horizontal spread from pinky tip to index tip: positive exactly
      when the index tip lies to the right of the pinky tip. */
  function Spread(h: Hand): (s: real)
    ensures s > 0.0 <==> h.pinky.tip.x < h.index.tip.x
  {
    h.index.tip.x - h.pinky.tip.x
  }

  /** The rule table, one row per gesture, each row read on its own. The
      middle and ring flags alone sort the rows: middle up and ring down is
      V-SIGN, both down is LIKE or CALL, both up is OK or WAVE. */
  predicate Matches(g: Gesture, h: Hand)
    ensures Matches(g, h) ==> (IsUp(h.middle) <==> g == VSign || g == Ok || g == Wave)
    ensures Matches(g, h) ==> (IsUp(h.ring) <==> g == Ok || g == Wave)
  {
    match g
    case VSign => IsUp(h.index) && IsUp(h.middle) && !IsUp(h.ring) && !IsUp(h.pinky)
    case Like => IsUp(h.thumb) && !IsUp(h.index) && !IsUp(h.middle) && !IsUp(h.ring) && !IsUp(h.pinky)
    case Ok => Pinched(h) && IsUp(h.middle) && IsUp(h.ring) && IsUp(h.pinky)
    case Call => IsUp(h.thumb) && !IsUp(h.index) && !IsUp(h.middle) && !IsUp(h.ring) && IsUp(h.pinky)
    case Wave =>
      IsUp(h.thumb) && IsUp(h.index) && IsUp(h.middle) && IsUp(h.ring) && IsUp(h.pinky) &&
      Spread(h) > WaveSpreadThreshold
  }

  /** Position of a rule in the order in which the classifier tries them. */
  function Priority(g: Gesture): nat {
    match g
    case VSign => 0
    case Like => 1
    case Ok => 2
    case Call => 3
    case Wave => 4
  }

  /** The classifier: the first rule, in priority order, that matches. */
  function Classify(h: Hand): (r: Option<Gesture>)
    ensures r.Some? ==> Matches(r.value, h)
    ensures r.Some? ==> forall g :: Priority(g) < Priority(r.value) ==> !Matches(g, h)
    ensures r.None? ==> forall g :: !Matches(g, h)
  {
    var thumbUp := IsUp(h.thumb);
    var indexUp := IsUp(h.index);
    var middleUp := IsUp(h.middle);
    var ringUp := IsUp(h.ring);
    var pinkyUp := IsUp(h.pinky);
    if indexUp && middleUp && !ringUp && !pinkyUp then Some(VSign)
    else if thumbUp && !indexUp && !middleUp && !ringUp && !pinkyUp then Some(Like)
    else if Pinched(h) && middleUp && ringUp && pinkyUp then Some(Ok)
    else if thumbUp && !indexUp && !middleUp && !ringUp && pinkyUp then Some(Call)
    else if thumbUp && indexUp && middleUp && ringUp && pinkyUp && Spread(h) > WaveSpreadThreshold then Some(Wave)
    else None
  }

  /** The label the classifier reports for a gesture, which is also the key
      under which the gesture's action is registered. It is never empty, so
      a recognised gesture always passes the dispatcher's truth test. */
  function Label(g: Gesture): (s: string)
    ensures |s| > 0
  {
    match g
    case VSign => "\U{270C}\U{FE0F} V-SIGN"
    case Like => "\U{1F44D} LIKE"
    case Ok => "\U{1F44C} OK"
    case Call => "\U{1F919} CALL"
    case Wave => "\U{1F44B} WAVE"
  }

  /** The squared-distance test agrees with the 3D distance test against
      0.05 for the (non-negative) distance whose square it is. */
  lemma PinchedIffDistanceBelowThreshold(h: Hand, dist: real)
    requires dist >= 0.0 && dist * dist == ThumbIndexDistanceSq(h)
    ensures Pinched(h) <==> dist < OkPinchThreshold
  {
    var t := OkPinchThreshold;
    if dist < t {
      assert dist * dist <= dist * t;
      assert dist * t < t * t;
    } else {
      assert dist * dist >= dist * t;
      assert dist * t >= t * t;
    }
  }

  /** Only OK and WAVE can both match a hand; every other pair of rows is
      mutually exclusive, so priority decides only between OK and WAVE. */
  lemma OnlyOkAndWaveOverlap(h: Hand, g1: Gesture, g2: Gesture)
    requires g1 != g2 && Matches(g1, h) && Matches(g2, h)
    ensures (g1 == Ok && g2 == Wave) || (g1 == Wave && g2 == Ok)
  {
  }

  /** Hence the classifier's answer is g exactly when g's row matches,
      except that a WAVE hand that also pinches is OK. */
  lemma ClassifyExact(h: Hand, g: Gesture)
    ensures Classify(h) == Some(g) <==> Matches(g, h) && (g == Wave ==> !Matches(Ok, h))
  {
  }

  /** The overlap is real: some hand matches both OK and WAVE, and it is
      classified as OK because OK is tried first. */
  lemma OkShadowsWave()
    ensures exists h :: Matches(Ok, h) && Matches(Wave, h) && Classify(h) == Some(Ok)
  {
    var up := Finger(Point(0.5, 0.2, 0.0), Point(0.5, 0.4, 0.0));
    var h := Hand(up, up, up, up, up.(tip := Point(0.2, 0.2, 0.0)));
    assert ThumbIndexDistanceSq(h) == 0.0;
    assert Matches(Ok, h) && Matches(Wave, h);
  }

  function ShiftPoint(p: Point, v: Point): Point {
    Point(p.x + v.x, p.y + v.y, p.z + v.z)
  }

  function ShiftFinger(f: Finger, v: Point): Finger {
    Finger(ShiftPoint(f.tip, v), ShiftPoint(f.pip, v))
  }

  /** The same hand moved by the vector v. */
  function Shift(h: Hand, v: Point): Hand {
    Hand(ShiftFinger(h.thumb, v), ShiftFinger(h.index, v), ShiftFinger(h.middle, v),
         ShiftFinger(h.ring, v), ShiftFinger(h.pinky, v))
  }

  /** Every test compares joints of one hand with each other, so moving the
      whole hand anywhere in the frame leaves its gesture unchanged. */
  lemma ClassifyIgnoresPosition(h: Hand, v: Point)
    ensures Classify(Shift(h, v)) == Classify(h)
  {
  }

  /** With index and middle up and ring and pinky down the answer is V-SIGN,
      whatever the thumb does (and so whatever the thumb-index distance). */
  lemma VSignWhateverThumb(h: Hand, thumb: Finger)
    requires IsUp(h.index) && IsUp(h.middle) && !IsUp(h.ring) && !IsUp(h.pinky)
    ensures Classify(h) == Some(VSign)
    ensures Classify(h.(thumb := thumb)) == Some(VSign)
  {
  }

  /** Thumb and index up with the middle finger down is no gesture at all:
      neither LIKE (index must be down) nor V-SIGN (middle must be up). */
  lemma ThumbAndIndexWithoutMiddleIsNone(h: Hand)
    requires IsUp(h.thumb) && IsUp(h.index) && !IsUp(h.middle)
    ensures Classify(h) == None
  {
  }

  /** OK depends only on the pinch and on middle, ring and pinky being up,
      not on the thumb's or the index's own up flags. */
  lemma OkIgnoresThumbAndIndexFlags(h: Hand)
    ensures Classify(h) == Some(Ok) <==> Pinched(h) && IsUp(h.middle) && IsUp(h.ring) && IsUp(h.pinky)
  {
  }

  /** A WAVE answer means all five fingers up, a spread strictly above 0.2,
      and thumb and index tips at least 0.05 apart (else it would be OK). */
  lemma WaveMeansSpreadAndApart(h: Hand)
    requires Classify(h) == Some(Wave)
    ensures IsUp(h.thumb) && IsUp(h.index) && IsUp(h.middle) && IsUp(h.ring) && IsUp(h.pinky)
    ensures Spread(h) > WaveSpreadThreshold
    ensures ThumbIndexDistanceSq(h) >= OkPinchThreshold * OkPinchThreshold
  {
  }

  /** The spread test is strict and signed: an open, unpinched hand whose
      spread is exactly 0.2, or whose pinky is far to the right of the
      index, is no gesture. */
  lemma WaveSpreadIsStrictAndSigned(h: Hand)
    requires IsUp(h.thumb) && IsUp(h.index) && IsUp(h.middle) && IsUp(h.ring) && IsUp(h.pinky)
    requires !Pinched(h)
    requires Spread(h) == WaveSpreadThreshold || Spread(h) < -WaveSpreadThreshold
    ensures Classify(h) == None
  {
  }
}
