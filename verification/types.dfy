/** The shared vocabulary of the controller: gesture labels, application modes,
    drawing points and the application-state snapshot (types.ts), plus the
    session record that holds the controller's mutable refs (App.tsx:14-16). */
module Types {

  datatype Option<+T> = None | Some(value: T)

  /** Gesture labels. `NoGesture` and `Pointing` exist but the classifier
      never produces them. */
  datatype GestureType = NoGesture | OpenPalm | ClosedFist | Pinch | Pointing | Victory | ThumbsUp

  datatype AppMode = Locked | Scanning | Active | Minecraft | Skeleton

  /** A normalized 2D position: a hand keypoint or the cursor. Depth is never read. */
  datatype Point = Point(x: real, y: real)

  /** One hand as delivered by the landmark source: 21 indexed keypoints. */
  type Hand = seq<Point>

  const HandPointCount: nat := 21

  predicate ValidHand(h: Hand) {
    |h| == HandPointCount
  }

  /** A recorded drawing sample; `isGap` marks a pen-up. */
  datatype DrawingPoint = DrawingPoint(x: real, y: real, isGap: bool)

  /** The pen-up marker appended when a pinch ends. */
  const Gap := DrawingPoint(0.0, 0.0, true)

  datatype HandGestureState = HandGestureState(kind: GestureType, position: Point)

  /** The externally visible snapshot. Fields that the controller never
      writes (readiness, fps, telemetry, messages, city) are not modelled. */
  datatype AppState = AppState(
    mode: AppMode,
    scanProgress: int,
    gesture: HandGestureState,
    drawingPath: seq<DrawingPoint>,
    userTypedText: string,
    hologramText: string,
    isMatrixActive: bool,
    isSmiling: bool,
    isProcessing: bool,
    rawLandmarks: seq<Hand>)

  /** The three refs the frame updater reads and writes. */
  datatype Timers = Timers(fistHoldStart: Option<real>, victoryCooldown: real, lastHandY: real)

  /** The arguments captured by a scheduled analysis. */
  datatype AnalysisJob = AnalysisJob(path: seq<DrawingPoint>, typed: string)

  /** Fire-and-forget requests to the speech and sound collaborators. */
  datatype Effect = Speak(text: string) | PlayTone(factor: real) | ScanSound | SelectSound | PhoenixSound

  /** The whole session: snapshot, refs, and the at-most-one pending timeout. */
  datatype Controller = Controller(app: AppState, timers: Timers, pending: Option<AnalysisJob>)

  /** What a step produces: the next session and the effects it requested, in call order. */
  datatype Outcome = Outcome(next: Controller, effects: seq<Effect>)

  function InitialAppState(): AppState {
    AppState(Locked, 0, HandGestureState(NoGesture, Point(0.5, 0.5)), [], "", "", false, false, false, [])
  }

  function InitialController(): Controller {
    Controller(InitialAppState(), Timers(None, 0.0, 0.5), None)
  }
}
