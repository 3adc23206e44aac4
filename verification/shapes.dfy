/** The single-stroke shape recogniser (App.tsx:91-113). A stroke is classified
    from its bounding box, its start, end and middle points, and the
    start-to-end distance, by the first matching rule in the order O, I, L, C, A. */
module Shapes {
  import opened Types
  import opened Geometry

  datatype Axis = X | Y

  function Along(p: DrawingPoint, a: Axis): real {
    match a
    case X => p.x
    case Y => p.y
  }

  /** Left-to-right running minimum starting from `acc`. */
  function FoldMin(pts: seq<DrawingPoint>, a: Axis, acc: real): (r: real)
    ensures r <= acc
    ensures forall i :: 0 <= i < |pts| ==> r <= Along(pts[i], a)
    ensures r == acc || exists i :: 0 <= i < |pts| && r == Along(pts[i], a)
    decreases |pts|
  {
    if |pts| == 0 then acc
    else
      var r := FoldMin(pts[1..], a, MinReal(acc, Along(pts[0], a)));
      assert forall i :: 1 <= i < |pts| ==> pts[i] == pts[1..][i - 1];
      r
  }

  /** Left-to-right running maximum starting from `acc`. */
  function FoldMax(pts: seq<DrawingPoint>, a: Axis, acc: real): (r: real)
    ensures r >= acc
    ensures forall i :: 0 <= i < |pts| ==> r >= Along(pts[i], a)
    ensures r == acc || exists i :: 0 <= i < |pts| && r == Along(pts[i], a)
    decreases |pts|
  {
    if |pts| == 0 then acc
    else
      var r := FoldMax(pts[1..], a, MaxReal(acc, Along(pts[0], a)));
      assert forall i :: 1 <= i < |pts| ==> pts[i] == pts[1..][i - 1];
      r
  }

  datatype Box = Box(minX: real, maxX: real, minY: real, maxY: real) {
    function Width(): real { maxX - minX }
    function Height(): real { maxY - minY }
  }

  /** The box the recogniser measures. Its running extremes start from
      min = 1 and max = 0 rather than from the first point; for points inside
      the unit square that makes no difference (`BoxInUnitSquare`). */
  function BoundingBox(pts: seq<DrawingPoint>): (b: Box)
    ensures b.minX <= 1.0 && b.minY <= 1.0 && b.maxX >= 0.0 && b.maxY >= 0.0
    ensures forall i :: 0 <= i < |pts| ==>
              b.minX <= pts[i].x <= b.maxX && b.minY <= pts[i].y <= b.maxY
    ensures b.minX == 1.0 || exists i :: 0 <= i < |pts| && b.minX == pts[i].x
    ensures b.maxX == 0.0 || exists i :: 0 <= i < |pts| && b.maxX == pts[i].x
    ensures b.minY == 1.0 || exists i :: 0 <= i < |pts| && b.minY == pts[i].y
    ensures b.maxY == 0.0 || exists i :: 0 <= i < |pts| && b.maxY == pts[i].y
  {
    Box(FoldMin(pts, X, 1.0), FoldMax(pts, X, 0.0), FoldMin(pts, Y, 1.0), FoldMax(pts, Y, 0.0))
  }

  const MinStrokePoints: nat := 10
  const MinBoxSide: real := 0.03
  /** More points than this and an unmatched stroke is "unrecognized" rather than skipped. */
  const UnknownAfter: nat := 20
  /** Squares of the 0.15 closing distance of 'O' and the 0.1 opening distance of 'C'. */
  const CloseDistSq: real := 0.0225
  const OpenDistSq: real := 0.01
  const SquareTolerance: real := 0.2
  const LevelTolerance: real := 0.2

  /** Strokes long enough and big enough to be classified at all. */
  predicate Eligible(pts: seq<DrawingPoint>) {
    var b := BoundingBox(pts);
    |pts| >= MinStrokePoints && !(b.Width() < MinBoxSide && b.Height() < MinBoxSide)
  }

  /** The squared start-to-end distance. */
  function EndsDistSq(pts: seq<DrawingPoint>): real
    requires |pts| > 0
  {
    DistSq(pts[0].x, pts[0].y, pts[|pts| - 1].x, pts[|pts| - 1].y)
  }

  /** The silhouette each letter stands for, tried independently of the others. */
  predicate Rule(pts: seq<DrawingPoint>, ch: char) {
    |pts| > 0 &&
    var b := BoundingBox(pts);
    var w := b.Width();
    var h := b.Height();
    var start := pts[0];
    var end := pts[|pts| - 1];
    var mid := pts[|pts| / 2];
    match ch
    case 'O' => EndsDistSq(pts) < CloseDistSq && Abs(w - h) < SquareTolerance
    case 'I' => h > w * 2.0
    case 'L' => h > w && start.y < end.y && start.x < end.x
    case 'C' =>
      EndsDistSq(pts) > OpenDistSq && Abs(w - h) < SquareTolerance
      && start.x > b.minX + w * 0.5 && end.x > b.minX + w * 0.5
    case 'A' => mid.y < start.y && mid.y < end.y && Abs(start.y - end.y) < LevelTolerance
    case _ => false
  }

  /** The order in which the rules are tried. */
  const LetterOrder: string := "OILCA"

  /** A recognised letter, an unrecognised (but substantial) stroke, or a stroke skipped silently. */
  datatype Verdict = Unclassified | Letter(ch: char) | Unrecognized

  predicate NoRule(pts: seq<DrawingPoint>) {
    forall k :: 0 <= k < |LetterOrder| ==> !Rule(pts, LetterOrder[k])
  }

  /** Classifies one stroke: too short or too small gives no classification;
      otherwise the first rule in O, I, L, C, A order that holds names the
      letter; with no rule, a stroke of more than 20 points is unrecognized
      and a shorter one gives no classification. */
  function AnalyzeShape(pts: seq<DrawingPoint>): (v: Verdict)
    ensures |pts| < MinStrokePoints ==> v == Unclassified
    ensures !Eligible(pts) ==> v == Unclassified
    ensures v.Letter? ==> v.ch in LetterOrder
    ensures v == Unrecognized <==> Eligible(pts) && NoRule(pts) && |pts| > UnknownAfter
  {
    if |pts| < MinStrokePoints then Unclassified
    else
      var b := BoundingBox(pts);
      var w := b.Width();
      var h := b.Height();
      if w < MinBoxSide && h < MinBoxSide then Unclassified
      else if Rule(pts, 'O') then Letter('O')
      else if Rule(pts, 'I') then Letter('I')
      else if Rule(pts, 'L') then Letter('L')
      else if Rule(pts, 'C') then Letter('C')
      else if Rule(pts, 'A') then Letter('A')
      else if |pts| > UnknownAfter then Unrecognized
      else Unclassified
  }

  /** The rule outcomes of a stroke, in the order they are tried. */
  function RuleOutcomes(pts: seq<DrawingPoint>): (r: seq<bool>)
    ensures |r| == |LetterOrder|
    ensures forall j :: 0 <= j < |LetterOrder| ==> r[j] == Rule(pts, LetterOrder[j])
  {
    seq(|LetterOrder|, j requires 0 <= j < |LetterOrder| => Rule(pts, LetterOrder[j]))
  }

  /** The classifier's decision chain over the eligibility test, the rule
      outcomes in O, I, L, C, A order, and the size test for "unknown". */
  function Chain(eligible: bool, r: seq<bool>, large: bool): Verdict
    requires |r| == |LetterOrder|
  {
    if !eligible then Unclassified
    else if r[0] then Letter(LetterOrder[0])
    else if r[1] then Letter(LetterOrder[1])
    else if r[2] then Letter(LetterOrder[2])
    else if r[3] then Letter(LetterOrder[3])
    else if r[4] then Letter(LetterOrder[4])
    else if large then Unrecognized
    else Unclassified
  }

  /** In the chain the k-th letter wins exactly when its test holds and no
      earlier one does. */
  lemma ChainFirstMatch(eligible: bool, r: seq<bool>, large: bool, k: nat)
    requires |r| == |LetterOrder| && k < |LetterOrder|
    ensures Chain(eligible, r, large) == Letter(LetterOrder[k]) <==>
              eligible && r[k] && forall j :: 0 <= j < k ==> !r[j]
  {
    assert LetterOrder == ['O', 'I', 'L', 'C', 'A'];
  }

  /** The classifier is the decision chain applied to the stroke's tests. */
  lemma AnalyzeShapeByRules(pts: seq<DrawingPoint>)
    ensures AnalyzeShape(pts) == Chain(Eligible(pts), RuleOutcomes(pts), |pts| > UnknownAfter)
  {
    var r := RuleOutcomes(pts);
    assert LetterOrder == ['O', 'I', 'L', 'C', 'A'];
    assert r[0] == Rule(pts, 'O') && r[1] == Rule(pts, 'I') && r[2] == Rule(pts, 'L');
    assert r[3] == Rule(pts, 'C') && r[4] == Rule(pts, 'A');
  }

  /** The rules are tried in the order O, I, L, C, A and the first that holds
      names the letter: the k-th letter is the verdict exactly when the stroke
      is eligible, its rule holds and no earlier rule does. */
  lemma AnalyzeShapeIsFirstMatch(pts: seq<DrawingPoint>, k: nat)
    requires k < |LetterOrder|
    ensures AnalyzeShape(pts) == Letter(LetterOrder[k]) <==>
              Eligible(pts) && Rule(pts, LetterOrder[k]) && forall j :: 0 <= j < k ==> !Rule(pts, LetterOrder[j])
  {
    var r := RuleOutcomes(pts);
    AnalyzeShapeByRules(pts);
    ChainFirstMatch(Eligible(pts), r, |pts| > UnknownAfter, k);
  }

  /** What a verdict contributes to the assembled word. */
  function VerdictText(v: Verdict): (s: string)
    ensures |s| <= 1
    ensures v == Unclassified <==> s == ""
    ensures v.Letter? ==> s == [v.ch]
    ensures v == Unrecognized ==> s == "?"
  {
    match v
    case Unclassified => ""
    case Letter(c) => [c]
    case Unrecognized => "?"
  }

  /** A stroke that closes on itself inside a near-square box reads as 'O',
      whatever else it satisfies. */
  lemma ClosedLoopIsO(pts: seq<DrawingPoint>)
    requires Eligible(pts)
    requires EndsDistSq(pts) < CloseDistSq
    requires Abs(BoundingBox(pts).Width() - BoundingBox(pts).Height()) < SquareTolerance
    ensures AnalyzeShape(pts) == Letter('O')
  {
    assert Rule(pts, LetterOrder[0]);
  }

  /** Inside the unit square the starting values of the running extremes
      never show: the box is the points' true bounding box. */
  lemma {:induction false} BoxInUnitSquare(pts: seq<DrawingPoint>)
    requires |pts| > 0
    requires forall i :: 0 <= i < |pts| ==> 0.0 <= pts[i].x <= 1.0 && 0.0 <= pts[i].y <= 1.0
    ensures exists i :: 0 <= i < |pts| && BoundingBox(pts).minX == pts[i].x
    ensures exists i :: 0 <= i < |pts| && BoundingBox(pts).maxX == pts[i].x
    ensures exists i :: 0 <= i < |pts| && BoundingBox(pts).minY == pts[i].y
    ensures exists i :: 0 <= i < |pts| && BoundingBox(pts).maxY == pts[i].y
  {
    var b := BoundingBox(pts);
    if b.minX == 1.0 {
      assert b.minX <= Along(pts[0], X) <= 1.0;
      assert b.minX == pts[0].x;
    }
    if b.maxX == 0.0 {
      assert b.maxX >= Along(pts[0], X) >= 0.0;
      assert b.maxX == pts[0].x;
    }
    if b.minY == 1.0 {
      assert b.minY <= Along(pts[0], Y) <= 1.0;
      assert b.minY == pts[0].y;
    }
    if b.maxY == 0.0 {
      assert b.maxY >= Along(pts[0], Y) >= 0.0;
      assert b.maxY == pts[0].y;
    }
  }
}
