/** The result of an analysis and the line announced with it (App.tsx:142-154). */
module Analysis {
  import opened Types
  import opened Words

  const Fallback: string := "UNKNOWN_ARTIFACT"
  const AppleLine: string := "A for Apple detected. Rendering schematic."
  const OrbLine: string := "Orbular structure detected."
  const BoxLine: string := "Box container detected."
  const IdentifiedSuffix: string := " Identified."

  /** The recognised word if there is one, else the typed text if there is
      any, else the fallback label; never empty. */
  function AnalysisResult(path: seq<DrawingPoint>, typed: string): (r: string)
    ensures |r| > 0
    ensures r == ProcessFullDrawing(path) || r == typed || r == Fallback
    ensures ProcessFullDrawing(path) != "" ==> r == ProcessFullDrawing(path)
    ensures ProcessFullDrawing(path) == "" && typed != "" ==> r == typed
    ensures ProcessFullDrawing(path) == "" && typed == "" ==> r == Fallback
  {
    var detected := ProcessFullDrawing(path);
    if detected != "" then detected
    else if typed != "" then typed
    else Fallback
  }

  /** The announcement is picked by the result's first letter; any other
      result is announced as "<result> Identified.". */
  function Announcement(result: string): (line: string)
    ensures |result| > 0 && result[0] == 'A' ==> line == AppleLine
    ensures |result| > 0 && result[0] == 'O' ==> line == OrbLine
    ensures |result| > 0 && result[0] == 'B' ==> line == BoxLine
    ensures (|result| == 0 || result[0] !in "AOB") ==> line == result + IdentifiedSuffix
    ensures |line| > 0
  {
    var line := result + IdentifiedSuffix;
    var line := if |result| > 0 && result[0] == 'A' then AppleLine else line;
    var line := if |result| > 0 && result[0] == 'O' then OrbLine else line;
    if |result| > 0 && result[0] == 'B' then BoxLine else line
  }

  /** With nothing drawn, typed text is the result and is announced as identified. */
  lemma TypedTextScenario()
    ensures AnalysisResult([], "HI") == "HI"
    ensures Announcement("HI") == "HI Identified."
  {
  }

  /** An empty analysis (nothing drawn, nothing typed) names the fallback label. */
  lemma EmptyAnalysisIsUnknownArtifact()
    ensures AnalysisResult([], "") == Fallback
    ensures Announcement(AnalysisResult([], "")) == "UNKNOWN_ARTIFACT Identified."
  {
  }
}
