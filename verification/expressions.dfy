/** The expression flags derived from the first face's blendshape scores
    (App.tsx:203-215). */
module Expressions {

  /** One named blendshape score. */
  datatype Category = Category(name: string, score: real)

  datatype Flags = Flags(matrix: bool, smiling: bool)

  const BrowThreshold: real := 0.3
  const SmileThreshold: real := 0.5

  /** The score of the first category carrying `name`, or 0 when there is none. */
  function ScoreOf(cats: seq<Category>, name: string): (r: real)
    ensures (forall i :: 0 <= i < |cats| ==> cats[i].name != name) ==> r == 0.0
    ensures (exists i :: 0 <= i < |cats| && cats[i].name == name) ==>
              exists i :: 0 <= i < |cats| && cats[i].name == name && r == cats[i].score
                && forall j :: 0 <= j < i ==> cats[j].name != name
  {
    if |cats| == 0 then 0.0
    else if cats[0].name == name then cats[0].score
    else
      var r := ScoreOf(cats[1..], name);
      assert forall i :: 1 <= i < |cats| ==> cats[i] == cats[1..][i - 1];
      r
  }

  /** The first category carrying `name` exists and scores over `t`. */
  predicate FirstScoreAbove(cats: seq<Category>, name: string, t: real) {
    exists i :: 0 <= i < |cats| && cats[i].name == name && cats[i].score > t
      && forall j :: 0 <= j < i ==> cats[j].name != name
  }

  /** Against a non-negative threshold, a missing category (read as 0) never
      passes and a present one passes exactly when its first score does. */
  lemma {:induction false} ScoreAboveMeansPresent(cats: seq<Category>, name: string, t: real)
    requires t >= 0.0
    ensures ScoreOf(cats, name) > t <==> FirstScoreAbove(cats, name, t)
  {
    if |cats| > 0 && cats[0].name != name {
      ScoreAboveMeansPresent(cats[1..], name, t);
      if ScoreOf(cats, name) > t {
        var i :| 0 <= i < |cats[1..]| && cats[1..][i].name == name && cats[1..][i].score > t
                 && forall j :: 0 <= j < i ==> cats[1..][j].name != name;
        assert cats[i + 1] == cats[1..][i];
        assert forall j :: 0 <= j < i + 1 ==> cats[j].name != name by {
          forall j | 0 <= j < i + 1 ensures cats[j].name != name {
            if j > 0 { assert cats[j] == cats[1..][j - 1]; }
          }
        }
      }
      if FirstScoreAbove(cats, name, t) {
        var i :| 0 <= i < |cats| && cats[i].name == name && cats[i].score > t
                 && forall j :: 0 <= j < i ==> cats[j].name != name;
        assert i > 0;
        assert cats[1..][i - 1] == cats[i];
        assert forall j :: 0 <= j < i - 1 ==> cats[1..][j].name != name by {
          forall j | 0 <= j < i - 1 ensures cats[1..][j].name != name {
            assert cats[1..][j] == cats[j + 1];
          }
        }
      }
    }
  }

  /** The flags of one frame. Only the first face counts: the "matrix" flag is
      on when the first entry of some brow-raise category scores over 0.3, the
      smile flag when the first entry of some smile category scores over 0.5;
      with no face both are off. */
  function ExpressionFlags(faces: seq<seq<Category>>): (f: Flags)
    ensures |faces| == 0 ==> f == Flags(false, false)
    ensures |faces| > 0 ==>
              (f.matrix <==> FirstScoreAbove(faces[0], "browInnerUp", BrowThreshold)
                             || FirstScoreAbove(faces[0], "browOuterUpLeft", BrowThreshold)
                             || FirstScoreAbove(faces[0], "browOuterUpRight", BrowThreshold))
    ensures |faces| > 0 ==>
              (f.smiling <==> FirstScoreAbove(faces[0], "mouthSmileLeft", SmileThreshold)
                              || FirstScoreAbove(faces[0], "mouthSmileRight", SmileThreshold))
  {
    if |faces| == 0 then Flags(false, false)
    else
      var cats := faces[0];
      var browInner := ScoreOf(cats, "browInnerUp");
      var browOuterL := ScoreOf(cats, "browOuterUpLeft");
      var browOuterR := ScoreOf(cats, "browOuterUpRight");
      var smileL := ScoreOf(cats, "mouthSmileLeft");
      var smileR := ScoreOf(cats, "mouthSmileRight");
      ScoreAboveMeansPresent(cats, "browInnerUp", BrowThreshold);
      ScoreAboveMeansPresent(cats, "browOuterUpLeft", BrowThreshold);
      ScoreAboveMeansPresent(cats, "browOuterUpRight", BrowThreshold);
      ScoreAboveMeansPresent(cats, "mouthSmileLeft", SmileThreshold);
      ScoreAboveMeansPresent(cats, "mouthSmileRight", SmileThreshold);
      Flags(browInner > BrowThreshold || browOuterL > BrowThreshold || browOuterR > BrowThreshold,
            smileL > SmileThreshold || smileR > SmileThreshold)
  }

  /** A face whose categories lack every smile score never reads as smiling. */
  lemma MissingSmileIsNotSmiling(faces: seq<seq<Category>>)
    requires |faces| > 0
    requires forall i :: 0 <= i < |faces[0]| ==>
               faces[0][i].name != "mouthSmileLeft" && faces[0][i].name != "mouthSmileRight"
    ensures !ExpressionFlags(faces).smiling
  {
  }
}
