/** Word assembly (App.tsx:115-133): the full drawing path is split into strokes
    at pen-up markers, the strokes are ordered left to right by their smallest
    x, each is classified, and the verdicts are concatenated. */
module Words {
  import opened Types
  import opened Geometry
  import opened Shapes

  predicate GapFree(s: seq<DrawingPoint>) {
    forall i :: 0 <= i < |s| ==> !s[i].isGap
  }

  /** The pen-down samples of a path, in order. */
  function PenDown(path: seq<DrawingPoint>): (r: seq<DrawingPoint>)
    ensures GapFree(r)
    ensures |r| <= |path|
  {
    if |path| == 0 then []
    else if path[0].isGap then PenDown(path[1..])
    else [path[0]] + PenDown(path[1..])
  }

  function Flatten(strokes: seq<seq<DrawingPoint>>): seq<DrawingPoint> {
    if |strokes| == 0 then [] else strokes[0] + Flatten(strokes[1..])
  }

  /** Every stroke is a non-empty run of pen-down samples. */
  predicate Strokes(strokes: seq<seq<DrawingPoint>>) {
    forall k :: 0 <= k < |strokes| ==> |strokes[k]| > 0 && GapFree(strokes[k])
  }

  function CountGaps(path: seq<DrawingPoint>): nat {
    if |path| == 0 then 0 else (if path[0].isGap then 1 else 0) + CountGaps(path[1..])
  }

  /** The split loop with `cur` as the stroke collected so far: a gap closes
      `cur` (dropping it when empty), a sample extends it, and the end of the
      path closes it. The strokes together hold exactly `cur` and the path's
      pen-down samples, in order, and there is at most one more stroke than gaps. */
  function SplitFrom(path: seq<DrawingPoint>, cur: seq<DrawingPoint>): (strokes: seq<seq<DrawingPoint>>)
    requires GapFree(cur)
    ensures Strokes(strokes)
    ensures Flatten(strokes) == cur + PenDown(path)
    ensures |strokes| <= CountGaps(path) + 1
    decreases |path|
  {
    if |path| == 0 then
      if |cur| > 0 then [cur] else []
    else if path[0].isGap then
      var rest := SplitFrom(path[1..], []);
      if |cur| > 0 then
        assert ([cur] + rest)[1..] == rest;
        [cur] + rest
      else rest
    else
      var rest := SplitFrom(path[1..], cur + [path[0]]);
      assert cur + [path[0]] + PenDown(path[1..]) == cur + ([path[0]] + PenDown(path[1..]));
      rest
  }

  function Segments(path: seq<DrawingPoint>): (strokes: seq<seq<DrawingPoint>>)
    ensures Strokes(strokes)
    ensures Flatten(strokes) == PenDown(path)
  {
    SplitFrom(path, [])
  }

  /** The smallest x of a stroke, the sort key. (`Math.min` of no values is
      never taken: every stroke has a sample.) */
  function StrokeMinX(s: seq<DrawingPoint>): (m: real)
    ensures forall i :: 0 <= i < |s| ==> m <= s[i].x
    ensures |s| > 0 ==> exists i :: 0 <= i < |s| && m == s[i].x
  {
    if |s| == 0 then 0.0
    else if |s| == 1 then s[0].x
    else
      var m := MinReal(s[0].x, StrokeMinX(s[1..]));
      assert forall i :: 1 <= i < |s| ==> s[i] == s[1..][i - 1];
      m
  }

  predicate SortedByMinX(strokes: seq<seq<DrawingPoint>>) {
    forall i, j :: 0 <= i < j < |strokes| ==> StrokeMinX(strokes[i]) <= StrokeMinX(strokes[j])
  }

  /** Puts `s` in front of the first stroke whose key is not smaller, so a
      stroke never overtakes an equal-keyed one (the comparator sort is stable). */
  function InsertByMinX(s: seq<DrawingPoint>, sorted: seq<seq<DrawingPoint>>): (r: seq<seq<DrawingPoint>>)
    requires SortedByMinX(sorted)
    ensures SortedByMinX(r)
    ensures multiset(r) == multiset(sorted) + multiset{s}
    ensures |r| == |sorted| + 1
  {
    if |sorted| == 0 || StrokeMinX(s) <= StrokeMinX(sorted[0]) then
      ConsSorted(s, sorted);
      [s] + sorted
    else
      SortedTail(sorted);
      var tail := InsertByMinX(s, sorted[1..]);
      assert sorted == [sorted[0]] + sorted[1..];
      HeadBoundsInsert(s, sorted, tail);
      ConsSorted(sorted[0], tail);
      [sorted[0]] + tail
  }

  /** The head of a sorted list bounds every key of a permutation of its tail
      with a larger-keyed stroke added. */
  lemma HeadBoundsInsert(s: seq<DrawingPoint>, sorted: seq<seq<DrawingPoint>>, tail: seq<seq<DrawingPoint>>)
    requires SortedByMinX(sorted) && |sorted| > 0
    requires StrokeMinX(sorted[0]) < StrokeMinX(s)
    requires multiset(tail) == multiset(sorted[1..]) + multiset{s}
    ensures forall k :: 0 <= k < |tail| ==> StrokeMinX(sorted[0]) <= StrokeMinX(tail[k])
  {
    forall k | 0 <= k < |tail| ensures StrokeMinX(sorted[0]) <= StrokeMinX(tail[k]) {
      assert tail[k] in multiset(tail);
      assert tail[k] in multiset(sorted[1..]) || tail[k] == s;
      if tail[k] != s {
        var m :| 0 <= m < |sorted[1..]| && sorted[1..][m] == tail[k];
        assert sorted[m + 1] == tail[k];
      }
    }
  }

  /** A stroke whose key is at most the first key of a sorted list can go in front of it. */
  lemma ConsSorted(h: seq<DrawingPoint>, tail: seq<seq<DrawingPoint>>)
    requires SortedByMinX(tail)
    requires |tail| > 0 ==> StrokeMinX(h) <= StrokeMinX(tail[0])
    ensures SortedByMinX([h] + tail)
  {
    ConsSortedBy(StrokeMinX, h, tail);
  }

  /** The tail of a sorted list is sorted. */
  lemma SortedTail(ss: seq<seq<DrawingPoint>>)
    requires SortedByMinX(ss) && |ss| > 0
    ensures SortedByMinX(ss[1..])
  {
    SortedTailBy(StrokeMinX, ss);
  }

  lemma SortedTailBy<T>(key: T -> real, s: seq<T>)
    requires forall i, j :: 0 <= i < j < |s| ==> key(s[i]) <= key(s[j])
    requires |s| > 0
    ensures forall i, j :: 0 <= i < j < |s[1..]| ==> key(s[1..][i]) <= key(s[1..][j])
  {
    forall i, j | 0 <= i < j < |s[1..]| ensures key(s[1..][i]) <= key(s[1..][j]) {
      assert s[1..][i] == s[i + 1] && s[1..][j] == s[j + 1];
    }
  }

  /** The same for any key: an element no larger than the first key of a
      sorted list can go in front of it. */
  lemma ConsSortedBy<T>(key: T -> real, h: T, tail: seq<T>)
    requires forall i, j :: 0 <= i < j < |tail| ==> key(tail[i]) <= key(tail[j])
    requires |tail| > 0 ==> key(h) <= key(tail[0])
    ensures forall i, j :: 0 <= i < j < |[h] + tail| ==> key(([h] + tail)[i]) <= key(([h] + tail)[j])
  {
    var r := [h] + tail;
    forall i, j | 0 <= i < j < |r| ensures key(r[i]) <= key(r[j]) {
      assert r[j] == tail[j - 1];
      if i > 0 {
        assert r[i] == tail[i - 1];
      } else if j > 1 {
        assert key(tail[0]) <= key(tail[j - 1]);
      }
    }
  }

  /** Orders strokes by smallest x, keeping drawing order among equal keys. */
  function SortByMinX(strokes: seq<seq<DrawingPoint>>): (r: seq<seq<DrawingPoint>>)
    ensures SortedByMinX(r)
    ensures multiset(r) == multiset(strokes)
    ensures |r| == |strokes|
  {
    if |strokes| == 0 then []
    else
      assert strokes == [strokes[0]] + strokes[1..];
      InsertByMinX(strokes[0], SortByMinX(strokes[1..]))
  }

  /** The concatenated verdicts: one character per recognised or unrecognized
      stroke, nothing for a stroke without classification. */
  function WordOf(strokes: seq<seq<DrawingPoint>>): (w: string)
    ensures |w| <= |strokes|
    ensures forall i :: 0 <= i < |w| ==> w[i] in "OILCA?"
  {
    if |strokes| == 0 then ""
    else
      var head := VerdictText(AnalyzeShape(strokes[0]));
      var tail := WordOf(strokes[1..]);
      assert forall i :: 0 <= i < |head| ==> head[i] in "OILCA?";
      head + tail
  }

  /** The word a finished drawing spells. */
  function ProcessFullDrawing(path: seq<DrawingPoint>): (word: string)
    ensures |path| == 0 ==> word == ""
    ensures |word| <= |Segments(path)|
    ensures |word| <= CountGaps(path) + 1
    ensures forall i :: 0 <= i < |word| ==> word[i] in "OILCA?"
  {
    if |path| == 0 then ""
    else WordOf(SortByMinX(Segments(path)))
  }

  /** A run of samples only extends the stroke being collected. */
  lemma {:induction false} SplitAcrossRun(run: seq<DrawingPoint>, rest: seq<DrawingPoint>, cur: seq<DrawingPoint>)
    requires GapFree(run) && GapFree(cur)
    ensures SplitFrom(run + rest, cur) == SplitFrom(rest, cur + run)
    decreases |run|
  {
    if |run| == 0 {
      assert run + rest == rest;
      assert cur + run == cur;
    } else {
      assert (run + rest)[0] == run[0];
      assert (run + rest)[1..] == run[1..] + rest;
      SplitAcrossRun(run[1..], rest, cur + [run[0]]);
      assert cur + [run[0]] + run[1..] == cur + run;
    }
  }

  /** Strokes laid end to end with exactly one pen-up between neighbours: the
      path the recorder leaves behind when the pen is lifted once per stroke. */
  function Join(ss: seq<seq<DrawingPoint>>): (path: seq<DrawingPoint>)
    ensures Strokes(ss) && |ss| > 0 ==> |path| >= |ss[0]| > 0
  {
    if |ss| == 0 then []
    else if |ss| == 1 then ss[0]
    else ss[0] + [Gap] + Join(ss[1..])
  }

  /** The pen-down samples of a run followed by anything are the run itself
      followed by the pen-down samples of the rest. */
  lemma {:induction false} PenDownOfRun(run: seq<DrawingPoint>, rest: seq<DrawingPoint>)
    ensures GapFree(run) ==> PenDown(run + rest) == run + PenDown(rest)
    decreases |run|
  {
    if |run| == 0 {
      assert run + rest == rest;
    } else if GapFree(run) {
      assert (run + rest)[0] == run[0];
      assert (run + rest)[1..] == run[1..] + rest;
      PenDownOfRun(run[1..], rest);
      assert run == [run[0]] + run[1..];
    }
  }

  /** A stroke followed by a pen-up is closed as one segment. */
  lemma StrokeThenGap(st: seq<DrawingPoint>, t: seq<DrawingPoint>)
    requires |st| > 0 && GapFree(st)
    ensures SplitFrom(st + ([Gap] + t), []) == [st] + SplitFrom(t, [])
  {
    SplitAcrossRun(st, [Gap] + t, []);
    assert [] + st == st;
    assert ([Gap] + t)[0] == Gap && ([Gap] + t)[1..] == t;
  }

  lemma StrokesTail(ss: seq<seq<DrawingPoint>>)
    requires Strokes(ss) && |ss| > 0
    ensures Strokes(ss[1..]) && ss == [ss[0]] + ss[1..]
  {
    forall k | 0 <= k < |ss[1..]| ensures |ss[1..][k]| > 0 && GapFree(ss[1..][k]) {
      assert ss[1..][k] == ss[k + 1];
    }
  }

  lemma JoinCons(ss: seq<seq<DrawingPoint>>, r: seq<DrawingPoint>)
    requires |ss| > 1
    ensures Join(ss) + [Gap] + r == ss[0] + ([Gap] + (Join(ss[1..]) + [Gap] + r))
  {
  }

  lemma ConsAppend(ss: seq<seq<DrawingPoint>>, rest: seq<seq<DrawingPoint>>)
    requires |ss| > 0
    ensures [ss[0]] + (ss[1..] + rest) == ss + rest
  {
    assert ss == [ss[0]] + ss[1..];
  }

  /** Splitting strokes joined by pen-ups, then a pen-up and more path, gives
      back the strokes followed by the segments of the rest. */
  lemma {:induction false} SplitJoinThen(ss: seq<seq<DrawingPoint>>, r: seq<DrawingPoint>)
    requires Strokes(ss) && |ss| > 0
    ensures SplitFrom(Join(ss) + [Gap] + r, []) == ss + SplitFrom(r, [])
    decreases |ss|
  {
    if |ss| == 1 {
      assert Join(ss) + [Gap] + r == ss[0] + ([Gap] + r);
      StrokeThenGap(ss[0], r);
      assert ss == [ss[0]];
    } else {
      var tail := Join(ss[1..]) + [Gap] + r;
      JoinCons(ss, r);
      StrokeThenGap(ss[0], tail);
      StrokesTail(ss);
      SplitJoinThen(ss[1..], r);
      ConsAppend(ss, SplitFrom(r, []));
    }
  }

  /** Splitting strokes joined by pen-ups gives back exactly the strokes. */
  lemma {:induction false} SplitJoin(ss: seq<seq<DrawingPoint>>)
    requires Strokes(ss) && |ss| > 0
    ensures SplitFrom(Join(ss), []) == ss
    decreases |ss|
  {
    if |ss| == 1 {
      SplitAcrossRun(ss[0], [], []);
      assert ss[0] + [] == ss[0] && [] + ss[0] == ss[0];
      assert SplitFrom([], ss[0]) == [ss[0]];
      assert ss == [ss[0]];
    } else {
      assert Join(ss) == ss[0] + ([Gap] + Join(ss[1..]));
      StrokeThenGap(ss[0], Join(ss[1..]));
      StrokesTail(ss);
      SplitJoin(ss[1..]);
    }
  }

  /** Segmentation breaks a path exactly at its pen-ups: strokes joined by
      single pen-ups, with or without a final pen-up, segment back into
      exactly those strokes. */
  lemma SegmentsOfJoin(ss: seq<seq<DrawingPoint>>)
    requires Strokes(ss)
    ensures Segments(Join(ss)) == ss
    ensures Segments(Join(ss) + [Gap]) == ss
  {
    if |ss| > 0 {
      SplitJoin(ss);
      SplitJoinThen(ss, []);
      assert Join(ss) + [Gap] + [] == Join(ss) + [Gap];
      assert ss + [] == ss;
    } else {
      assert Join(ss) + [Gap] == [Gap];
      assert [Gap][1..] == [];
    }
  }

  /** A pen-up before anything is recorded closes no stroke. */
  lemma LeadingGapIgnored(p: seq<DrawingPoint>)
    ensures Segments([Gap] + p) == Segments(p)
  {
    assert ([Gap] + p)[0] == Gap && ([Gap] + p)[1..] == p;
  }

  /** A second pen-up right after a pen-up closes no stroke. */
  lemma {:induction false} DoubledGapIgnored(a: seq<DrawingPoint>, b: seq<DrawingPoint>, cur: seq<DrawingPoint>)
    requires GapFree(cur)
    ensures SplitFrom(a + [Gap, Gap] + b, cur) == SplitFrom(a + [Gap] + b, cur)
    ensures |cur| == 0 ==> Segments(a + [Gap, Gap] + b) == Segments(a + [Gap] + b)
    decreases |a|
  {
    var two := a + [Gap, Gap] + b;
    var one := a + [Gap] + b;
    if |a| == 0 {
      assert two == [Gap] + ([Gap] + b) && one == [Gap] + b;
      assert two[0] == Gap && two[1..] == [Gap] + b;
      assert one[0] == Gap && one[1..] == b;
      assert ([Gap] + b)[0] == Gap && ([Gap] + b)[1..] == b;
    } else {
      assert two[0] == a[0] && two[1..] == a[1..] + [Gap, Gap] + b;
      assert one[0] == a[0] && one[1..] == a[1..] + [Gap] + b;
      if a[0].isGap {
        DoubledGapIgnored(a[1..], b, []);
      } else {
        DoubledGapIgnored(a[1..], b, cur + [a[0]]);
      }
    }
  }

  /** The word of a sequence of strokes is the words of its parts, concatenated. */
  lemma {:induction false} WordOfConcat(a: seq<seq<DrawingPoint>>, b: seq<seq<DrawingPoint>>)
    ensures WordOf(a + b) == WordOf(a) + WordOf(b)
    decreases |a|
  {
    if |a| == 0 {
      assert a + b == b;
    } else {
      assert (a + b)[0] == a[0] && (a + b)[1..] == a[1..] + b;
      WordOfConcat(a[1..], b);
    }
  }

  /** One stroke spells its own verdict. */
  lemma WordOfSingle(s: seq<DrawingPoint>)
    ensures WordOf([s]) == VerdictText(AnalyzeShape(s))
  {
    assert [s][1..] == [];
  }

  /** A drawing made of strokes separated by pen-ups spells the verdicts of
      those strokes, ordered by smallest x. */
  lemma ProcessJoin(ss: seq<seq<DrawingPoint>>)
    requires Strokes(ss) && |ss| > 0
    ensures ProcessFullDrawing(Join(ss)) == WordOf(SortByMinX(ss))
    ensures ProcessFullDrawing(Join(ss) + [Gap]) == WordOf(SortByMinX(ss))
  {
    SegmentsOfJoin(ss);
  }

  /** A single stroke, with or without its closing pen-up, is one segment. */
  lemma OneStroke(s: seq<DrawingPoint>)
    requires |s| > 0 && GapFree(s)
    ensures Segments(s) == [s]
    ensures Segments(s + [Gap]) == [s]
  {
    SplitAcrossRun(s, [], []);
    assert s + [] == s;
    assert [] + s == s;
    assert SplitFrom([], s) == [s];
    SplitAcrossRun(s, [Gap], []);
    assert [Gap][1..] == [];
  }

  /** Two strokes separated by a pen-up are two segments, in drawing order. */
  lemma TwoStrokes(s1: seq<DrawingPoint>, s2: seq<DrawingPoint>)
    requires |s1| > 0 && GapFree(s1) && |s2| > 0 && GapFree(s2)
    ensures Segments(s1 + [Gap] + s2) == [s1, s2]
  {
    assert s1 + [Gap] + s2 == s1 + ([Gap] + s2);
    SplitAcrossRun(s1, [Gap] + s2, []);
    assert [] + s1 == s1;
    assert ([Gap] + s2)[0] == Gap && ([Gap] + s2)[1..] == s2;
    assert SplitFrom([Gap] + s2, s1) == [s1] + SplitFrom(s2, []);
    SplitAcrossRun(s2, [], []);
    assert s2 + [] == s2;
    assert [] + s2 == s2;
    assert SplitFrom(s2, []) == [s2];
  }

  /** A closed pinch stroke tracing a loop reads as the word "O". */
  lemma LoopDrawingReadsO(s: seq<DrawingPoint>)
    requires GapFree(s) && Eligible(s)
    requires EndsDistSq(s) < CloseDistSq
    requires Abs(BoundingBox(s).Width() - BoundingBox(s).Height()) < SquareTolerance
    ensures ProcessFullDrawing(s + [Gap]) == "O"
  {
    OneStroke(s);
    ClosedLoopIsO(s);
    assert SortByMinX([s]) == [s];
    assert WordOf([s]) == VerdictText(AnalyzeShape(s)) + WordOf([s][1..]);
  }

  /** Sorting two strokes with different keys puts the smaller key first. */
  lemma SortTwo(left: seq<DrawingPoint>, right: seq<DrawingPoint>)
    requires StrokeMinX(left) < StrokeMinX(right)
    ensures SortByMinX([left, right]) == [left, right]
    ensures SortByMinX([right, left]) == [left, right]
  {
    assert [left, right][1..] == [right];
    assert [right, left][1..] == [left];
    assert SortByMinX([right]) == InsertByMinX(right, SortByMinX([]));
    assert SortByMinX([left]) == InsertByMinX(left, SortByMinX([]));
  }

  lemma WordOfTwo(a: seq<DrawingPoint>, b: seq<DrawingPoint>)
    ensures WordOf([a, b]) == VerdictText(AnalyzeShape(a)) + VerdictText(AnalyzeShape(b))
  {
    assert [a, b][1..] == [b];
    assert [b][1..] == [];
  }

  /** Two strokes spell their letters left to right by smallest x, whichever
      was drawn first. */
  lemma TwoStrokesReadLeftToRight(left: seq<DrawingPoint>, right: seq<DrawingPoint>)
    requires |left| > 0 && GapFree(left) && |right| > 0 && GapFree(right)
    requires StrokeMinX(left) < StrokeMinX(right)
    ensures ProcessFullDrawing(left + [Gap] + right)
              == VerdictText(AnalyzeShape(left)) + VerdictText(AnalyzeShape(right))
    ensures ProcessFullDrawing(right + [Gap] + left)
              == VerdictText(AnalyzeShape(left)) + VerdictText(AnalyzeShape(right))
  {
    TwoStrokes(left, right);
    TwoStrokes(right, left);
    SortTwo(left, right);
    WordOfTwo(left, right);
  }
}
