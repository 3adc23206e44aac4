/** The gesture classifier (App.tsx:162-191): a first-match decision list over
    one hand's 21 keypoints. Image y grows downward, so "above" is "smaller y". */
module Gestures {
  import opened Types
  import opened Geometry

  const Wrist: nat := 0
  const ThumbTip: nat := 4
  const IndexPip: nat := 6
  const IndexTip: nat := 8
  const MiddleMcp: nat := 9
  const MiddlePip: nat := 10
  const MiddleTip: nat := 12
  const RingPip: nat := 14
  const RingTip: nat := 16
  const PinkyPip: nat := 18
  const PinkyTip: nat := 20

  /** A pinch is a thumb-index gap under a quarter of the wrist-to-middle-MCP span;
      compared squared, the factor is 0.25 * 0.25. */
  const PinchRatioSq: real := 0.0625

  /** Fingertip strictly above its PIP joint. */
  predicate Extended(h: Hand, tip: nat, pip: nat)
    requires ValidHand(h) && tip < 21 && pip < 21
  {
    h[tip].y < h[pip].y
  }

  /** Fingertip strictly below its PIP joint. */
  predicate Folded(h: Hand, tip: nat, pip: nat)
    requires ValidHand(h) && tip < 21 && pip < 21
  {
    h[tip].y > h[pip].y
  }

  predicate ThumbUp(h: Hand)
    requires ValidHand(h)
  {
    h[ThumbTip].y < h[IndexPip].y && h[ThumbTip].y < h[MiddlePip].y
  }

  predicate FourFingersFolded(h: Hand)
    requires ValidHand(h)
  {
    Folded(h, IndexTip, IndexPip) && Folded(h, MiddleTip, MiddlePip)
    && Folded(h, RingTip, RingPip) && Folded(h, PinkyTip, PinkyPip)
  }

  function HandSpanSq(h: Hand): real
    requires ValidHand(h)
  {
    DistSq(h[Wrist].x, h[Wrist].y, h[MiddleMcp].x, h[MiddleMcp].y)
  }

  function ThumbIndexSq(h: Hand): real
    requires ValidHand(h)
  {
    DistSq(h[ThumbTip].x, h[ThumbTip].y, h[IndexTip].x, h[IndexTip].y)
  }

  /** The pose each reachable label stands for, independent of priority. */
  predicate Pose(h: Hand, g: GestureType)
    requires ValidHand(h)
  {
    match g
    case ThumbsUp => ThumbUp(h) && FourFingersFolded(h)
    case Victory =>
      Extended(h, IndexTip, IndexPip) && Extended(h, MiddleTip, MiddlePip)
      && Folded(h, RingTip, RingPip) && Folded(h, PinkyTip, PinkyPip)
    case Pinch => ThumbIndexSq(h) < PinchRatioSq * HandSpanSq(h)
    case ClosedFist =>
      !Extended(h, IndexTip, IndexPip) && !Extended(h, MiddleTip, MiddlePip)
      && Folded(h, RingTip, RingPip) && Folded(h, PinkyTip, PinkyPip)
    case OpenPalm => true
    case _ => false
  }

  /** The order in which the classifier tries the poses; OPEN_PALM is the fallback. */
  const Priority: seq<GestureType> := [ThumbsUp, Victory, Pinch, ClosedFist]

  /** The label of the first pose in `Priority` that holds, else OPEN_PALM. */
  function DetectGesture(h: Hand): (g: GestureType)
    requires ValidHand(h)
    ensures g in Priority || g == OpenPalm
    ensures g != NoGesture && g != Pointing
    ensures g == OpenPalm <==> forall k :: 0 <= k < |Priority| ==> !Pose(h, Priority[k])
    ensures forall k :: 0 <= k < |Priority| ==>
              (g == Priority[k] <==> Pose(h, Priority[k]) && forall j :: 0 <= j < k ==> !Pose(h, Priority[j]))
  {
    if ThumbUp(h) && FourFingersFolded(h) then ThumbsUp
    else
      var indexExtended := h[IndexTip].y < h[IndexPip].y;
      var middleExtended := h[MiddleTip].y < h[MiddlePip].y;
      var ringFolded := h[RingTip].y > h[RingPip].y;
      var pinkyFolded := h[PinkyTip].y > h[PinkyPip].y;
      if indexExtended && middleExtended && ringFolded && pinkyFolded then Victory
      else if ThumbIndexSq(h) < PinchRatioSq * HandSpanSq(h) then Pinch
      else if !indexExtended && !middleExtended && ringFolded && pinkyFolded then ClosedFist
      else OpenPalm
  }

  /** A raised thumb over four folded fingers is THUMBS_UP however close the
      thumb is to the index tip. */
  lemma ThumbsUpIgnoresPinchDistance(h: Hand)
    requires ValidHand(h)
    requires h[ThumbTip].y < h[IndexPip].y && h[ThumbTip].y < h[MiddlePip].y
    requires h[IndexTip].y > h[IndexPip].y && h[MiddleTip].y > h[MiddlePip].y
    requires h[RingTip].y > h[RingPip].y && h[PinkyTip].y > h[PinkyPip].y
    ensures DetectGesture(h) == ThumbsUp
  {
  }

  /** The hand moved by (dx, dy). */
  function Translate(h: Hand, dx: real, dy: real): (t: Hand)
    ensures |t| == |h|
    ensures forall i :: 0 <= i < |h| ==> t[i] == Point(h[i].x + dx, h[i].y + dy)
  {
    seq(|h|, i requires 0 <= i < |h| => Point(h[i].x + dx, h[i].y + dy))
  }

  /** The hand scaled by k about the origin. */
  function Scale(h: Hand, k: real): (t: Hand)
    ensures |t| == |h|
    ensures forall i :: 0 <= i < |h| ==> t[i] == Point(k * h[i].x, k * h[i].y)
  {
    seq(|h|, i requires 0 <= i < |h| => Point(k * h[i].x, k * h[i].y))
  }

  /** The hand reflected left-to-right, as the selfie view does. */
  function Mirror(h: Hand): (t: Hand)
    ensures |t| == |h|
    ensures forall i :: 0 <= i < |h| ==> t[i] == Point(1.0 - h[i].x, h[i].y)
  {
    seq(|h|, i requires 0 <= i < |h| => Point(1.0 - h[i].x, h[i].y))
  }

  /** Two hands that agree on every pose get the same label. */
  lemma SamePosesSameGesture(h: Hand, t: Hand)
    requires ValidHand(h) && ValidHand(t)
    requires forall k :: 0 <= k < |Priority| ==> (Pose(h, Priority[k]) <==> Pose(t, Priority[k]))
    ensures DetectGesture(t) == DetectGesture(h)
  {
  }

  /** Moving the hand does not change the label. */
  lemma TranslationInvariant(h: Hand, dx: real, dy: real)
    requires ValidHand(h)
    ensures DetectGesture(Translate(h, dx, dy)) == DetectGesture(h)
  {
    var t := Translate(h, dx, dy);
    assert ThumbIndexSq(t) == ThumbIndexSq(h);
    assert HandSpanSq(t) == HandSpanSq(h);
    SamePosesSameGesture(h, t);
  }

  /** Mirroring the hand does not change the label. */
  lemma MirrorInvariant(h: Hand)
    requires ValidHand(h)
    ensures DetectGesture(Mirror(h)) == DetectGesture(h)
  {
    var t := Mirror(h);
    assert ThumbIndexSq(t) == ThumbIndexSq(h);
    assert HandSpanSq(t) == HandSpanSq(h);
    SamePosesSameGesture(h, t);
  }

  lemma ScaledDistSq(x1: real, y1: real, x2: real, y2: real, k: real)
    ensures DistSq(k * x1, k * y1, k * x2, k * y2) == k * k * DistSq(x1, y1, x2, y2)
  {
    assert k * x1 - k * x2 == k * (x1 - x2);
    assert k * y1 - k * y2 == k * (y1 - y2);
    SqScale(k, x1 - x2);
    SqScale(k, y1 - y2);
  }

  lemma ScaledLess(a: real, b: real, k: real)
    requires k > 0.0
    ensures k * a < k * b <==> a < b
  {
    if a < b {
      assert k * (b - a) > 0.0;
    } else {
      assert k * (a - b) >= 0.0;
    }
  }

  lemma ScaledSpans(h: Hand, k: real)
    requires ValidHand(h)
    ensures HandSpanSq(Scale(h, k)) == k * k * HandSpanSq(h)
    ensures ThumbIndexSq(Scale(h, k)) == k * k * ThumbIndexSq(h)
  {
    var t := Scale(h, k);
    assert t[Wrist] == Point(k * h[Wrist].x, k * h[Wrist].y);
    assert t[MiddleMcp] == Point(k * h[MiddleMcp].x, k * h[MiddleMcp].y);
    assert t[ThumbTip] == Point(k * h[ThumbTip].x, k * h[ThumbTip].y);
    assert t[IndexTip] == Point(k * h[IndexTip].x, k * h[IndexTip].y);
    ScaledDistSq(h[ThumbTip].x, h[ThumbTip].y, h[IndexTip].x, h[IndexTip].y, k);
    ScaledDistSq(h[Wrist].x, h[Wrist].y, h[MiddleMcp].x, h[MiddleMcp].y, k);
  }

  lemma ScaledRatio(a: real, s: real, a': real, s': real, c: real, k: real)
    requires k > 0.0 && a' == k * k * a && s' == k * k * s
    ensures a' < c * s' <==> a < c * s
  {
    ScaledLess(a, c * s, k);
    ScaledLess(k * a, k * (c * s), k);
    assert k * k * a == k * (k * a);
    assert c * (k * k * s) == k * (k * (c * s));
  }

  /** Scaling keeps the pinch test: both distances scale by the same factor. */
  lemma ScaledPinch(h: Hand, k: real)
    requires ValidHand(h) && k > 0.0
    ensures Pose(Scale(h, k), Pinch) <==> Pose(h, Pinch)
  {
    var t := Scale(h, k);
    ScaledSpans(h, k);
    ScaledRatio(ThumbIndexSq(h), HandSpanSq(h), ThumbIndexSq(t), HandSpanSq(t), PinchRatioSq, k);
  }

  /** Scaling keeps every "above" relation between two keypoints. */
  lemma ScaledAbove(h: Hand, k: real, i: nat, j: nat)
    requires ValidHand(h) && k > 0.0 && i < 21 && j < 21
    ensures Scale(h, k)[i].y < Scale(h, k)[j].y <==> h[i].y < h[j].y
  {
    ScaledLess(h[i].y, h[j].y, k);
  }

  /** Holding the hand nearer to or farther from the camera does not change the label. */
  lemma ScaleInvariant(h: Hand, k: real)
    requires ValidHand(h) && k > 0.0
    ensures DetectGesture(Scale(h, k)) == DetectGesture(h)
  {
    var t := Scale(h, k);
    ScaledAbove(h, k, ThumbTip, IndexPip);
    ScaledAbove(h, k, ThumbTip, MiddlePip);
    ScaledAbove(h, k, IndexTip, IndexPip);
    ScaledAbove(h, k, IndexPip, IndexTip);
    ScaledAbove(h, k, MiddleTip, MiddlePip);
    ScaledAbove(h, k, MiddlePip, MiddleTip);
    ScaledAbove(h, k, RingPip, RingTip);
    ScaledAbove(h, k, PinkyPip, PinkyTip);
    ScaledPinch(h, k);
    SamePosesSameGesture(h, t);
  }
}
