# jarvis-demo frame controller, modelled in Dafny

The demo is a browser application. Every camera frame, it turns hand and face
landmarks into application state:

- a gesture label;
- a mode (LOCKED, SCANNING, ACTIVE, MINECRAFT, SKELETON);
- a biometric scan progress;
- a pen path drawn by pinching;
- typed text;
- a "hologram" caption.

This project models that controller as pure functions over `real` coordinates:

- `Control.Step(session, frame, now)` returns the next session and the list of speech and sound effects the frame asks for.
- `Control.CompleteAnalysis` is the delayed second half of an analysis. It runs when the 1.5 s timeout fires.
- `Control.KeyDown` is the keyboard buffer.

Files:

| file | models |
|---|---|
| `types.dfy` | the records and enums of `types.ts` and the start session |
| `geometry.dfy` | absolute value, minimum/maximum and squared distance |
| `gestures.dfy` | the hand-gesture classifier |
| `expressions.dfy` | the brow-raise and smile flags read from face blendshape scores |
| `shapes.dfy` | the one-stroke letter recogniser |
| `words.dfy` | splitting a drawing into strokes, left-to-right ordering and word assembly |
| `analysis.dfy` | the fallback chain for the analysis result and the line announced with it |
| `controller.dfy` | the frame updater phase by phase, the analysis completion and the keyboard |
| `invariants.dfy` | the invariant every reachable session keeps, and its preservation |
| `properties.dfy` | frame-level promises about the gate, timers and pen, and the invariant over any run of events |

How the model maps the program:

- **State outside React.** Three mutable refs sit outside React state: the fist-hold start, the last victory time and the last tone height. They are a `Timers` record inside the session.
- **The pending timeout.** An analysis that has started but whose timeout has not yet fired is `pending: Option<AnalysisJob>`.
- **Distance tests.** `Math.hypot(dx, dy) < t` is stated as `dx² + dy² < t²`. `Geometry.SquaredComparison` shows the two agree for non-negative lengths.
- **The hold-start test.** The program checks a truthy value, so both "unset" and 0 read as unset. The model's `Armed` says the same.
- **Last write wins.** The updater copies `prev` to `next`. Every guard reads `prev`, and a later write to a field overwrites an earlier one. The model runs the phases in the program's order over a draft state, so it keeps every such overwrite. For example, THUMBS_UP in LOCKED announces SKELETON, but the gate then writes LOCKED back (`Properties.ThumbsUpWhileLockedStaysLocked`).
- **The gate guards one hand only.** The two-hand branch checks only that the mode is not MINECRAFT, and a closed fist in MINECRAFT selects ACTIVE. So a LOCKED session reaches ACTIVE in two frames without any scan: two open palms, then a fist. The program allows this and the model keeps it (`Properties.MinecraftBypassesGate`). A fist in SKELETON can also still play a tone in the same frame, because the tone phase reads the old mode.
- **The fist clear.** The fist-hold clear empties the path, and the pen-up write later in the same frame could in principle overwrite that. `Invariants.Inv` shows it never does in a reachable session: while a hold is being timed, the pen is always up.

## Model

| member | source | states |
|---|---|---|
| Gestures.DetectGesture | App.tsx:162-191 | the label is never NONE or POINTING; it is OPEN_PALM exactly when none of the thumbs-up, victory, pinch or fist poses holds; otherwise it is the first of those four, in that order, whose pose holds |
| Gestures.ThumbsUpIgnoresPinchDistance | App.tsx:174-176 | a thumb above the index and middle PIPs with all four fingertips below their PIPs is THUMBS_UP, whatever the thumb–index distance |
| Gestures.SamePosesSameGesture | App.tsx:162-191 | two hands that agree on every pose test get the same label |
| Gestures.TranslationInvariant | App.tsx:162-191 | moving the whole hand does not change its label |
| Gestures.MirrorInvariant | App.tsx:162-191 | reflecting the hand left-to-right does not change its label |
| Gestures.ScaleInvariant | App.tsx:162-191 | scaling the hand by any positive factor does not change its label, because the pinch test is relative to the hand span |
| Gestures.ScaledPinch | App.tsx:172-186 | the pinch test (thumb–index distance under a quarter of the wrist–middle-knuckle span) is scale-free |
| Geometry.SquaredComparison | App.tsx:185-186 | for non-negative lengths, comparing two lengths and comparing their squares agree, which justifies the squared distance tests |
| Expressions.ScoreOf | App.tsx:206-208 | the score of the first category with the name, or 0 when the name is missing |
| Expressions.ScoreAboveMeansPresent | App.tsx:206-209 | against a non-negative threshold, a name's score (missing counts as 0) passes exactly when its first entry exists and scores above the threshold |
| Expressions.ExpressionFlags | App.tsx:203-215 | with no face both flags are off; otherwise "matrix" holds exactly when one of the three brow scores is above 0.3, and "smiling" exactly when one of the two smile scores is above 0.5 |
| Expressions.MissingSmileIsNotSmiling | App.tsx:211-213 | a face with no smile categories never reads as smiling |
| Shapes.FoldMin | App.tsx:93-94 | the running minimum is at most the seed and every point, and equals the seed or some point |
| Shapes.FoldMax | App.tsx:93-94 | the running maximum is at least the seed and every point, and equals the seed or some point |
| Shapes.BoundingBox | App.tsx:92-96 | the box's minima are at most 1, its maxima at least 0, it contains every point, and each bound is its seed or some point's coordinate |
| Shapes.BoxInUnitSquare | App.tsx:93-94 | for a non-empty stroke inside the unit square, each side of the box (folded from 1 and 0) is attained by some point |
| Shapes.AnalyzeShape | App.tsx:91-113 | under 10 points, or a box under 0.03 on both sides, gives no classification; a letter verdict is one of O, I, L, C, A; "unknown" is given exactly when the stroke is eligible, no rule holds and it has more than 20 points |
| Shapes.AnalyzeShapeIsFirstMatch | App.tsx:102-109 | the k-th letter of O, I, L, C, A is the verdict exactly when the stroke is eligible, its rule holds and no earlier rule does |
| Shapes.ClosedLoopIsO | App.tsx:103 | an eligible stroke that ends within 0.15 of its start, in a box within 0.2 of square, reads 'O' |
| Shapes.VerdictText | App.tsx:127-130 | a letter contributes itself, "unknown" contributes '?', and no classification contributes nothing |
| Words.PenDown | App.tsx:117-121 | the pen-down samples of a path contain no pen-up and are no more than the path |
| Words.SplitFrom | App.tsx:117-123 | every stroke is non-empty and free of pen-ups; the strokes concatenate to the pending stroke followed by the path's pen-down samples; there is at most one more stroke than pen-ups |
| Words.Segments | App.tsx:115-123 | the strokes of a path are non-empty, free of pen-ups, and concatenate to exactly its pen-down samples |
| Words.SplitJoin | App.tsx:117-123 | strokes joined by single pen-ups split back into exactly those strokes |
| Words.SplitJoinThen | App.tsx:117-123 | strokes joined by pen-ups, then a pen-up and more path, split into those strokes followed by the segments of the rest |
| Words.SegmentsOfJoin | App.tsx:115-123 | segmentation breaks exactly at pen-ups: strokes joined by single pen-ups, with or without a final pen-up, segment back into exactly those strokes |
| Words.LeadingGapIgnored | App.tsx:118-119 | a pen-up before any sample closes no stroke |
| Words.DoubledGapIgnored | App.tsx:118-119 | a second pen-up right after a pen-up closes no stroke |
| Words.StrokeMinX | App.tsx:124 | the sort key is at most every x of the stroke and, for a non-empty stroke, is one of them |
| Words.InsertByMinX | App.tsx:124 | inserting into a sorted list keeps it sorted by smallest x and adds exactly that stroke |
| Words.SortByMinX | App.tsx:124 | the result is ordered by non-decreasing smallest x and is a permutation of the input |
| Words.WordOf | App.tsx:126-131 | the word has at most one character per stroke, each one of O, I, L, C, A, '?' |
| Words.ProcessFullDrawing | App.tsx:115-133 | an empty path gives the empty word; the word is no longer than the number of strokes (nor one more than the number of pen-ups) and uses only O, I, L, C, A, '?' |
| Words.WordOfConcat | App.tsx:126-131 | the word of a sequence of strokes is the words of its parts, concatenated |
| Words.WordOfSingle | App.tsx:126-131 | one stroke spells its own verdict |
| Words.ProcessJoin | App.tsx:115-133 | a drawing of strokes separated by pen-ups, with or without a final pen-up, spells the strokes' verdicts ordered by smallest x |
| Words.SplitAcrossRun | App.tsx:117-121 | a run of pen-down samples only extends the stroke being collected |
| Words.OneStroke | App.tsx:117-123 | a single stroke, with or without a closing pen-up, is one segment |
| Words.TwoStrokes | App.tsx:117-123 | two strokes separated by a pen-up are two segments in drawing order |
| Words.LoopDrawingReadsO | App.tsx:115-133 | one closed near-square loop followed by a pen-up spells "O" |
| Words.SortTwo | App.tsx:124 | two strokes with different smallest x are put in left-to-right order, whichever came first |
| Words.TwoStrokesReadLeftToRight | App.tsx:115-133 | two strokes spell their letters left to right by smallest x, whichever was drawn first |
| Analysis.AnalysisResult | App.tsx:142-143 | the result is never empty: the recognised word if there is one, else the typed text if there is any, else "UNKNOWN_ARTIFACT" |
| Analysis.Announcement | App.tsx:145-148 | a result starting with A, O or B gets the Apple, Orb or Box line; any other result is announced as "<result> Identified." |
| Analysis.TypedTextScenario | App.tsx:142-148 | with nothing drawn, typed "HI" is the result and is announced as "HI Identified." |
| Analysis.EmptyAnalysisIsUnknownArtifact | App.tsx:142-148 | with nothing drawn or typed the result is "UNKNOWN_ARTIFACT" |
| Control.TwoHands | App.tsx:231-240 | two open palms outside MINECRAFT enter MINECRAFT with a blank hologram and the announcement; any other pair, or any pair inside MINECRAFT, changes nothing |
| Control.ModeSwitches | App.tsx:247-256 | THUMBS_UP outside SKELETON selects SKELETON with a blank hologram and speaks the skeleton line; CLOSED_FIST in MINECRAFT or SKELETON selects ACTIVE, keeps the hologram and speaks the disengaged line; anything else changes nothing |
| Control.Tone | App.tsx:258-264 | in SKELETON a move of more than 0.05 since the last tone plays tone 1−y and records y; otherwise nothing changes |
| Control.Gate | App.tsx:266-279 | in LOCKED/SCANNING an open palm sets progress to min(100, p+2); at 100 the mode is ACTIVE with the select sound and "Access Granted.", below it SCANNING with the scan sound on a tick; any other gesture gives LOCKED with max(0, p−5) and requests nothing; nothing else changes, and other modes are untouched |
| Control.Timing | App.tsx:282-297 | VICTORY more than 5000 ms after the last one starts an analysis of the previous path and text, sets processing, records now and requests the analysing line and scan sound, and nothing else; a first fist arms the hold at now; a fist held more than 1500 ms clears path, text and hologram, sets the hold to now+2000 and speaks the cleared line; any other gesture only disarms the hold |
| Control.Drawing | App.tsx:281-308 | outside ACTIVE nothing changes; in ACTIVE the result is the timing phase's in every field but the path, which is the recorder's write when it writes and otherwise the timing phase's path; a fist clear with the pen up leaves path and text empty |
| Control.PenWrite | App.tsx:299-307 | PINCH appends the cursor exactly when the path is empty, ends in a pen-up, or the cursor moved more than 0.005; any other gesture appends a pen-up exactly when the path ends in a sample |
| Control.NoHands | App.tsx:309-314 | losing the hand in SCANNING gives LOCKED with progress 0; any other mode is unchanged |
| Control.OneHand | App.tsx:241-245 | a one-hand frame shows that hand's label and the mirrored index fingertip as the cursor |
| Control.Branch | App.tsx:231-314 | one hand shows its label and cursor; any other count keeps the gesture, timers and analysis; two hands can only enter MINECRAFT; with no hands SCANNING drops to LOCKED with progress 0, and nothing else changes |
| Control.Refreshed | App.tsx:222-227 | the refresh sets the matrix and smile flags from the faces and the raw hands from the frame, and changes nothing else |
| Control.Step | App.tsx:219-229 | while processing the frame changes nothing and asks for nothing; otherwise the expression flags and raw hands are always refreshed |
| Control.CompleteAnalysis | App.tsx:141-158 | the timeout clears processing, shows the analysis result and announces it with the phoenix sound; nothing else changes |
| Control.UpperChar | App.tsx:77 | lower-case ASCII letters map to their capitals and every other character is kept |
| Control.KeyDown | App.tsx:71-79 | outside ACTIVE nothing happens; Backspace drops the last typed character and shows the rest; a one-character key is appended, shown in capitals and clicks; other keys are ignored; only the typed text and hologram can change |
| Control.TypeThenBackspace | App.tsx:74-77 | typing a character and then Backspace restores the typed text |
| Invariants.InitialInv | App.tsx:26-42 | the start session is LOCKED with progress 0 and satisfies the invariant |
| Invariants.PenWriteKeepsWellFormed | App.tsx:299-307 | the recorder never makes a path that starts with a pen-up or has two pen-ups in a row, and keeps consecutive samples more than 0.005 apart; after any gesture but PINCH the pen is up |
| Invariants.DrawingKeepsPath | App.tsx:281-308 | the ACTIVE sub-machine keeps the path well formed, and keeps the pen up while a fist hold is timed |
| Invariants.OneHandKeepsInv | App.tsx:241-308 | a one-hand frame keeps the invariant |
| Invariants.StepKeepsInv | App.tsx:219-316 | every frame keeps the invariant: progress in 0..100, SCANNING below 100, LOCKED at most 94, path well formed, pen up while a hold is timed, processing exactly while an analysis is pending |
| Invariants.CompleteKeepsInv | App.tsx:150-154 | completing an analysis keeps the invariant |
| Invariants.KeyDownKeepsInv | App.tsx:71-79 | a key press keeps the invariant |
| Properties.OpenPalmAdvancesScan | App.tsx:266-275 | an open palm in LOCKED/SCANNING sets progress to min(100, p+2); the session is ACTIVE with the grant cues exactly at 100, and SCANNING otherwise, with the scan sound on every tenth millisecond; path and timers are kept |
| Properties.OtherGestureLocks | App.tsx:276-278 | any other one-hand gesture in LOCKED/SCANNING gives LOCKED with max(0, p−5) |
| Properties.ThumbsUpWhileLockedStaysLocked | App.tsx:247-278 | THUMBS_UP in LOCKED speaks the SKELETON line and blanks the hologram, but the session stays LOCKED |
| Properties.LosingHandAbandonsScan | App.tsx:309-314 | a frame without one or two hands in SCANNING gives LOCKED with 0, and only the sensors change otherwise |
| Properties.LosingHandElsewhereChangesNothing | App.tsx:309-314 | a frame without one or two hands outside SCANNING refreshes only the sensors and asks for nothing |
| Properties.LockedCannotUnlockInOneFrame | App.tsx:266-279 | from a reachable LOCKED session no single frame reaches ACTIVE |
| Properties.MinecraftBypassesGate | App.tsx:231-256 | from LOCKED with progress 0, two open palms enter MINECRAFT and one closed fist then gives ACTIVE, with the progress still 0 |
| Properties.FistLeavesMode | App.tsx:253-256 | a closed fist in MINECRAFT or SKELETON gives ACTIVE and keeps the scan progress; from MINECRAFT the disengaged line is the only cue |
| Properties.UnlockIsPermanent | App.tsx:219-316 | once out of LOCKED/SCANNING no frame returns there, and keys and completions keep the mode |
| Properties.TwoOpenPalmsEnterMinecraft | App.tsx:231-240 | two open palms give MINECRAFT, with the announcement and a blank hologram when entering; inside MINECRAFT only the sensors change |
| Properties.GestureEcho | App.tsx:241-245 | only a one-hand frame sets the gesture and cursor; other frames keep the previous ones |
| Properties.SkeletonFrame | App.tsx:258-264 | in SKELETON a non-fist hand keeps the mode; it plays one tone and records the height exactly when it moved more than 0.05, and otherwise asks for nothing |
| Properties.SkeletonRepeatIsSilent | App.tsx:258-264 | in SKELETON the same non-fist frame a second time asks for nothing |
| Properties.VictoryStartsAnalysis | App.tsx:282-284 | VICTORY more than 5000 ms after the last start begins processing the previous path and text and records the time |
| Properties.VictoryWithinCooldownIsIgnored | App.tsx:282-284 | VICTORY within 5000 ms starts nothing and asks for nothing |
| Properties.FistArmsHold | App.tsx:286-287 | the first fist frame arms the hold at now and asks for nothing |
| Properties.FistHoldClears | App.tsx:288-294 | a fist held more than 1500 ms clears path, text and hologram, says "Canvas Cleared." and sets the hold to now+2000 |
| Properties.FistHoldWaits | App.tsx:286-294 | a fist held 1500 ms or less changes neither path, text nor timers and asks for nothing |
| Properties.NoSecondClearWithinRefractory | App.tsx:293 | after a clear at a non-negative time, a fist up to 3500 ms later does not clear again |
| Properties.OtherGestureDisarms | App.tsx:295-296 | any gesture but a fist or a firing VICTORY unsets the hold |
| Properties.PinchRecords | App.tsx:299-303 | PINCH in ACTIVE either appends the cursor as a sample or leaves the path as it was |
| Properties.ReleaseLiftsPen | App.tsx:304-306 | any other gesture (a canvas clear aside) appends a pen-up exactly when the pen was down |
| Properties.AnalysisRoundTrip | App.tsx:136-158 | a firing VICTORY followed by the timeout shows the analysis of the previous path and text and ends processing |
| Properties.PendingAnalysisFreezesFrames | App.tsx:220 | while an analysis is pending every frame is ignored, so a second cannot start |
| Properties.RunKeepsInv | App.tsx:219-316 | every run of frames, timeouts and key presses keeps the invariant |
| Properties.Reachable | App.tsx:219-316 | in every session reachable from the start, progress is within 0..100, the path is well formed, and processing holds exactly while an analysis is pending |

## Left out

- Model loading, camera acquisition and `requestAnimationFrame` scheduling are foreign I/O. Landmarks, blendshape scores and the timestamp `now` are parameters of a frame.
- Speech synthesis and Web Audio playback are reduced to effect tokens (`Speak`, `PlayTone`, `ScanSound`, `SelectSound`, `PhoenixSound`), emitted in call order. What the sound service does with them (note tables, oscillators) is not modelled.
- All rendering (the terminal, globe, HUD, exosuit overlay, hologram stage and the JSX) is left out. None of it feeds back into the controller.
- Fields the controller never writes (`isSystemReady`, `fps`, `telemetry`, `currentMessage`, `selectedCity`) are left out of the session record. So is the optional `pinchDistance` of a gesture.
- Coordinates are exact reals. IEEE-754 rounding, NaN and infinities are not modelled. Landmark z coordinates are never read and are not modelled.
- The 1.5 s delay before an analysis completes is not timed. Completion is a separate step that can be applied at any point. There is no cancellation, as in the program.
- React's batching of state updates and StrictMode's double invocation of updaters are left out. The nested processing flag set while an analysis starts runs after the frame updater returns. No later part of the updater reads or writes that flag, so the model sets it within the frame.
- KeyDown: the program tests the mode of the last rendered state rather than the updater's `prev`. The model tests the session it is given. Key length is counted in UTF-16 code units in the program and in characters here.
- Control.UpperChar: only ASCII letters are upper-cased. The program's `toUpperCase` is full Unicode case mapping.
- Words.SplitFrom: its own contract states only that the strokes are clean and hold the pending stroke and the pen-down samples in order; where the strokes break is stated by Words.SplitJoin, Words.SplitJoinThen and Words.DoubledGapIgnored.
- Words.Segments: its own contract states only that the strokes are clean and hold the pen-down samples in order; where the strokes break is stated by Words.SegmentsOfJoin, Words.LeadingGapIgnored and Words.DoubledGapIgnored.
- Words.WordOf: its own contract bounds only the word's length and alphabet; the word itself is stated by Words.WordOfSingle and Words.WordOfConcat.
- Words.ProcessFullDrawing: its own contract bounds only the word's length and alphabet; the word a drawing of separated strokes spells is stated by Words.ProcessJoin.
- Words.SortByMinX: the insertion sort keeps drawing order among strokes with equal smallest x, like the program's stable sort. Its contract states only ordering and permutation, not stability.
