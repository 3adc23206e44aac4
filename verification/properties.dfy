/** The promises of the frame updater, stated over whole frames
    (App.tsx:219-316), and the invariant over every run of events. */
module Properties {
  import opened Types
  import opened Gestures
  import opened Analysis
  import opened Control
  import opened Invariants

  /** A frame showing exactly one hand, classified as `g`. */
  predicate OneHandShowing(f: Frame, g: GestureType) {
    ValidFrame(f) && |f.hands| == 1 && DetectGesture(f.hands[0]) == g
  }

  // ---------------------------------------------------------------------------
  // The biometric gate (App.tsx:266-279, 309-314)

  /** An open palm while LOCKED or SCANNING advances the scan by 2, capped at
      100; it unlocks exactly at 100 with the grant cues, and otherwise keeps
      scanning with the scan sound on every tenth millisecond. */
  lemma OpenPalmAdvancesScan(c: Controller, f: Frame, now: real)
    requires !c.app.isProcessing && (c.app.mode == Locked || c.app.mode == Scanning)
    requires OneHandShowing(f, OpenPalm)
    ensures var o := Step(c, f, now);
            var p := if c.app.scanProgress + ScanStep < FullScan then c.app.scanProgress + ScanStep else FullScan;
            o.next.app.scanProgress == p
            && (o.next.app.mode == Active <==> p == FullScan)
            && (p < FullScan ==> o.next.app.mode == Scanning)
            && (p == FullScan ==> o.effects == [SelectSound, Speak(GrantedLine)])
            && (p < FullScan ==> o.effects == (if ScanTick(now) then [ScanSound] else []))
            && o.next.app.drawingPath == c.app.drawingPath && o.next.timers == c.timers
  {
  }

  /** Any other gesture while LOCKED or SCANNING locks and decays the scan by
      5, never below 0. */
  lemma OtherGestureLocks(c: Controller, f: Frame, now: real, g: GestureType)
    requires !c.app.isProcessing && (c.app.mode == Locked || c.app.mode == Scanning)
    requires OneHandShowing(f, g) && g != OpenPalm
    ensures var o := Step(c, f, now);
            o.next.app.mode == Locked
            && o.next.app.scanProgress == (if c.app.scanProgress - ScanDecay > 0 then c.app.scanProgress - ScanDecay else 0)
  {
  }

  /** A thumbs-up while LOCKED announces SKELETON and blanks the hologram, yet
      the gate's later write keeps the session LOCKED. */
  lemma ThumbsUpWhileLockedStaysLocked(c: Controller, f: Frame, now: real)
    requires !c.app.isProcessing && c.app.mode == Locked
    requires OneHandShowing(f, ThumbsUp)
    ensures var o := Step(c, f, now);
            o.next.app.mode == Locked && o.next.app.hologramText == "" && o.effects == [Speak(SkeletonLine)]
  {
  }

  /** Losing the hand while SCANNING drops back to LOCKED with no progress. */
  lemma LosingHandAbandonsScan(c: Controller, f: Frame, now: real)
    requires !c.app.isProcessing && c.app.mode == Scanning
    requires ValidFrame(f) && |f.hands| != 1 && |f.hands| != 2
    ensures Step(c, f, now) == Outcome(Refreshed(c, f).(app := Refreshed(c, f).app.(mode := Locked, scanProgress := 0)), [])
  {
  }

  /** With no hand in any other mode only the sensors are refreshed. */
  lemma LosingHandElsewhereChangesNothing(c: Controller, f: Frame, now: real)
    requires !c.app.isProcessing && c.app.mode != Scanning
    requires ValidFrame(f) && |f.hands| != 1 && |f.hands| != 2
    ensures Step(c, f, now) == Outcome(Refreshed(c, f), [])
  {
  }

  /** From LOCKED no single frame reaches ACTIVE. */
  lemma LockedCannotUnlockInOneFrame(c: Controller, f: Frame, now: real)
    requires Inv(c) && ValidFrame(f) && c.app.mode == Locked
    ensures Step(c, f, now).next.app.mode != Active
  {
  }

  /** The gate guards only the one-hand path: from LOCKED with no scan at all,
      two open palms enter MINECRAFT and one closed fist then selects ACTIVE,
      without the progress ever moving. */
  lemma MinecraftBypassesGate(c: Controller, f2: Frame, f1: Frame, now: real, later: real)
    requires Inv(c) && !c.app.isProcessing && c.app.mode == Locked && c.app.scanProgress == 0
    requires ValidFrame(f2) && |f2.hands| == 2
    requires DetectGesture(f2.hands[0]) == OpenPalm && DetectGesture(f2.hands[1]) == OpenPalm
    requires OneHandShowing(f1, ClosedFist)
    ensures var c1 := Step(c, f2, now).next;
            c1.app.mode == Minecraft && c1.app.scanProgress == 0
            && Step(c1, f1, later).next.app.mode == Active
            && Step(c1, f1, later).next.app.scanProgress == 0
  {
    TwoOpenPalmsEnterMinecraft(c, f2, now);
    var c1 := Step(c, f2, now).next;
    assert !c1.app.isProcessing;
    FistLeavesMode(c1, f1, later);
  }

  /** A closed fist in MINECRAFT or SKELETON selects ACTIVE and keeps the scan;
      from MINECRAFT the only cue is the disengaged line (in SKELETON the
      tone phase still reads the old mode and may play). */
  lemma FistLeavesMode(c: Controller, f: Frame, now: real)
    requires !c.app.isProcessing && (c.app.mode == Minecraft || c.app.mode == Skeleton)
    requires OneHandShowing(f, ClosedFist)
    ensures Step(c, f, now).next.app.mode == Active
    ensures Step(c, f, now).next.app.scanProgress == c.app.scanProgress
    ensures c.app.mode == Minecraft ==> Step(c, f, now).effects == [Speak(DisengagedLine)]
  {
    var h := f.hands[0];
    var d := Draft(Refreshed(c, f).app, c.timers, c.pending, []);
    FistOneHand(c.app, d, h, now);
    assert Branch(c.app, d, f.hands, now) == OneHand(c.app, d, h, now);
  }

  /** The draft-level half of `FistLeavesMode`: only the mode switch and the
      tone phase act. */
  lemma FistOneHand(prev: AppState, d: Draft, h: Hand, now: real)
    requires (prev.mode == Minecraft || prev.mode == Skeleton) && ValidHand(h) && DetectGesture(h) == ClosedFist
    ensures var d' := OneHand(prev, d, h, now);
            d'.next.mode == Active && d'.next.scanProgress == d.next.scanProgress
            && (prev.mode == Minecraft ==> d'.effects == d.effects + [Speak(DisengagedLine)])
  {
    var pos := Cursor(h);
    var d0 := d.(next := d.next.(gesture := HandGestureState(ClosedFist, pos)));
    var d1 := ModeSwitches(prev, ClosedFist, d0);
    var d2 := Tone(prev, pos, d1);
    assert Gate(prev, ClosedFist, now, d2) == d2;
    assert Drawing(prev, ClosedFist, pos, now, d2) == d2;
  }

  /** Once past the gate, no frame, key or completion brings it back. */
  lemma UnlockIsPermanent(c: Controller, f: Frame, now: real, key: string)
    requires ValidFrame(f) && c.app.mode != Locked && c.app.mode != Scanning
    ensures Step(c, f, now).next.app.mode != Locked && Step(c, f, now).next.app.mode != Scanning
    ensures CompleteAnalysis(c).next.app.mode == c.app.mode
    ensures KeyDown(c, key).next.app.mode == c.app.mode
  {
  }

  // ---------------------------------------------------------------------------
  // Mode switches (App.tsx:231-264)

  /** Two open palms enter MINECRAFT with its announcement; inside MINECRAFT
      they do nothing more. */
  lemma TwoOpenPalmsEnterMinecraft(c: Controller, f: Frame, now: real)
    requires !c.app.isProcessing && ValidFrame(f) && |f.hands| == 2
    requires DetectGesture(f.hands[0]) == OpenPalm && DetectGesture(f.hands[1]) == OpenPalm
    ensures var o := Step(c, f, now);
            o.next.app.mode == Minecraft
            && (c.app.mode != Minecraft ==> o.next.app.hologramText == "" && o.effects == [Speak(MinecraftLine)])
            && (c.app.mode == Minecraft ==> o == Outcome(Refreshed(c, f), []))
  {
  }

  /** Only a one-hand frame moves the cursor; otherwise the last gesture stays. */
  lemma GestureEcho(c: Controller, f: Frame, now: real)
    requires !c.app.isProcessing && ValidFrame(f)
    ensures |f.hands| == 1 ==>
              Step(c, f, now).next.app.gesture == HandGestureState(DetectGesture(f.hands[0]), Cursor(f.hands[0]))
    ensures |f.hands| != 1 ==> Step(c, f, now).next.app.gesture == c.app.gesture
  {
  }

  /** In SKELETON a hand other than a fist keeps the mode and plays a tone
      exactly when it moved more than 0.05 vertically since the last tone. */
  lemma SkeletonFrame(c: Controller, f: Frame, now: real)
    requires !c.app.isProcessing && c.app.mode == Skeleton
    requires ValidFrame(f) && |f.hands| == 1 && DetectGesture(f.hands[0]) != ClosedFist
    ensures var o := Step(c, f, now);
            var y := Cursor(f.hands[0]).y;
            var moved := Geometry.Abs(c.timers.lastHandY - y) > ToneStep;
            o.next.app.mode == Skeleton && !o.next.app.isProcessing
            && (moved ==> o.effects == [PlayTone(1.0 - y)] && o.next.timers.lastHandY == y)
            && (!moved ==> o.effects == [] && o.next.timers.lastHandY == c.timers.lastHandY)
  {
    var h := f.hands[0];
    var d := Draft(Refreshed(c, f).app, c.timers, c.pending, []);
    SkeletonOneHand(c.app, d, h, now);
    assert Branch(c.app, d, f.hands, now) == OneHand(c.app, d, h, now);
  }

  /** In SKELETON, a hand other than a fist runs only the tone phase. */
  lemma SkeletonOneHand(prev: AppState, d: Draft, h: Hand, now: real)
    requires prev.mode == Skeleton && ValidHand(h) && DetectGesture(h) != ClosedFist
    ensures OneHand(prev, d, h, now)
              == Tone(prev, Cursor(h), d.(next := d.next.(gesture := HandGestureState(DetectGesture(h), Cursor(h)))))
  {
    var g := DetectGesture(h);
    var pos := Cursor(h);
    var d0 := d.(next := d.next.(gesture := HandGestureState(g, pos)));
    assert ModeSwitches(prev, g, d0) == d0;
    var d2 := Tone(prev, pos, d0);
    assert Gate(prev, g, now, d2) == d2;
    assert Drawing(prev, g, pos, now, d2) == d2;
  }

  /** In SKELETON a held hand plays at most one tone: the same frame again is silent. */
  lemma SkeletonRepeatIsSilent(c: Controller, f: Frame, now: real, later: real)
    requires !c.app.isProcessing && c.app.mode == Skeleton
    requires ValidFrame(f) && |f.hands| == 1 && DetectGesture(f.hands[0]) != ClosedFist
    ensures Step(c, f, now).next.app.mode == Skeleton
    ensures Step(Step(c, f, now).next, f, later).effects == []
  {
    SkeletonFrame(c, f, now);
    var c1 := Step(c, f, now).next;
    SkeletonFrame(c1, f, later);
  }

  // ---------------------------------------------------------------------------
  // The ACTIVE timers (App.tsx:282-297)

  /** VICTORY after the 5000 ms cooldown starts an analysis of the previous
      frame's drawing and text and restarts the cooldown. */
  lemma VictoryStartsAnalysis(c: Controller, f: Frame, now: real)
    requires !c.app.isProcessing && c.app.mode == Active
    requires OneHandShowing(f, Victory) && now - c.timers.victoryCooldown > VictoryCooldownMs
    ensures var o := Step(c, f, now);
            o.next.pending == Some(AnalysisJob(c.app.drawingPath, c.app.userTypedText))
            && o.next.app.isProcessing && o.next.timers.victoryCooldown == now
            && o.effects == [Speak(AnalyzingLine), ScanSound]
  {
  }

  /** VICTORY within the cooldown starts nothing. */
  lemma VictoryWithinCooldownIsIgnored(c: Controller, f: Frame, now: real)
    requires !c.app.isProcessing && c.app.mode == Active
    requires OneHandShowing(f, Victory) && now - c.timers.victoryCooldown <= VictoryCooldownMs
    ensures var o := Step(c, f, now);
            o.next.pending == c.pending && !o.next.app.isProcessing
            && o.next.timers.victoryCooldown == c.timers.victoryCooldown && o.effects == []
  {
  }

  /** The first fist frame arms the hold timer and changes nothing else but the pen. */
  lemma FistArmsHold(c: Controller, f: Frame, now: real)
    requires !c.app.isProcessing && c.app.mode == Active && !Armed(c.timers.fistHoldStart)
    requires OneHandShowing(f, ClosedFist)
    ensures var o := Step(c, f, now);
            o.next.timers.fistHoldStart == Some(now) && o.effects == []
            && o.next.app.userTypedText == c.app.userTypedText
  {
  }

  /** A fist held for more than 1500 ms clears the canvas, the typed text and
      the hologram, and pushes the hold start 2000 ms into the future. The
      pen-up write that follows in the same frame cannot undo the clear,
      because a timed hold only ever runs with the pen up. */
  lemma FistHoldClears(c: Controller, f: Frame, now: real)
    requires Inv(c) && !c.app.isProcessing && c.app.mode == Active
    requires OneHandShowing(f, ClosedFist) && Armed(c.timers.fistHoldStart)
    requires now - c.timers.fistHoldStart.value > FistHoldMs
    ensures var o := Step(c, f, now);
            o.next.app.drawingPath == [] && o.next.app.userTypedText == "" && o.next.app.hologramText == ""
            && o.next.timers.fistHoldStart == Some(now + FistRefractoryMs)
            && o.effects == [Speak(ClearedLine)]
  {
  }

  /** A fist held for no more than 1500 ms changes nothing visible. */
  lemma FistHoldWaits(c: Controller, f: Frame, now: real)
    requires Inv(c) && !c.app.isProcessing && c.app.mode == Active
    requires OneHandShowing(f, ClosedFist) && Armed(c.timers.fistHoldStart)
    requires now - c.timers.fistHoldStart.value <= FistHoldMs
    ensures var o := Step(c, f, now);
            o.next.app.drawingPath == c.app.drawingPath && o.next.app.userTypedText == c.app.userTypedText
            && o.next.timers == c.timers && o.effects == []
  {
  }

  /** After a clear at a non-negative time, a fist kept up to 3500 ms later
      does not clear again. */
  lemma NoSecondClearWithinRefractory(c: Controller, f: Frame, now: real, later: real)
    requires Inv(c) && !c.app.isProcessing && c.app.mode == Active
    requires OneHandShowing(f, ClosedFist) && Armed(c.timers.fistHoldStart)
    requires now - c.timers.fistHoldStart.value > FistHoldMs && now >= 0.0
    requires later - (now + FistRefractoryMs) <= FistHoldMs
    ensures Step(Step(c, f, now).next, f, later).effects == []
  {
    FistHoldClears(c, f, now);
    StepKeepsInv(c, f, now);
    FistHoldWaits(Step(c, f, now).next, f, later);
  }

  /** Any gesture other than a fist or a firing VICTORY disarms the hold timer. */
  lemma OtherGestureDisarms(c: Controller, f: Frame, now: real, g: GestureType)
    requires !c.app.isProcessing && c.app.mode == Active
    requires OneHandShowing(f, g) && g != ClosedFist
    requires !(g == Victory && now - c.timers.victoryCooldown > VictoryCooldownMs)
    ensures Step(c, f, now).next.timers.fistHoldStart == None
  {
  }

  // ---------------------------------------------------------------------------
  // The stroke recorder (App.tsx:299-307)

  /** PINCH in ACTIVE records the cursor unless it sits within the minimum
      step of the last sample. */
  lemma PinchRecords(c: Controller, f: Frame, now: real)
    requires !c.app.isProcessing && c.app.mode == Active
    requires OneHandShowing(f, Pinch)
    ensures var path := c.app.drawingPath;
            var pos := Cursor(f.hands[0]);
            var path' := Step(c, f, now).next.app.drawingPath;
            path' == path + [DrawingPoint(pos.x, pos.y, false)] || path' == path
  {
  }

  /** Any other gesture lifts the pen: a pen-up is recorded exactly when the
      pen was down (the canvas clear aside). */
  lemma ReleaseLiftsPen(c: Controller, f: Frame, now: real, g: GestureType)
    requires Inv(c) && !c.app.isProcessing && c.app.mode == Active
    requires OneHandShowing(f, g) && g != Pinch
    requires !(g == ClosedFist && Armed(c.timers.fistHoldStart) && now - c.timers.fistHoldStart.value > FistHoldMs)
    ensures var path := c.app.drawingPath;
            Step(c, f, now).next.app.drawingPath == (if PathClosed(path) then path else path + [Gap])
  {
  }

  // ---------------------------------------------------------------------------
  // The analysis round trip (App.tsx:136-160)

  /** A firing VICTORY followed by the timeout shows the analysis of what was
      on the canvas and in the typed text, and ends processing. */
  lemma AnalysisRoundTrip(c: Controller, f: Frame, now: real)
    requires Inv(c) && !c.app.isProcessing && c.app.mode == Active
    requires OneHandShowing(f, Victory) && now - c.timers.victoryCooldown > VictoryCooldownMs
    ensures var o := CompleteAnalysis(Step(c, f, now).next);
            var result := AnalysisResult(c.app.drawingPath, c.app.userTypedText);
            o.next.app.hologramText == result && !o.next.app.isProcessing && o.next.pending == None
            && o.effects == [Speak(Announcement(result)), PhoenixSound]
  {
    VictoryStartsAnalysis(c, f, now);
  }

  /** While an analysis is pending every frame is ignored, so a second one
      cannot start. */
  lemma PendingAnalysisFreezesFrames(c: Controller, f: Frame, now: real)
    requires Inv(c) && ValidFrame(f) && c.pending.Some?
    ensures Step(c, f, now) == Outcome(c, [])
  {
  }

  // ---------------------------------------------------------------------------
  // Runs of events

  /** What can happen to the session: a camera frame at a time, the analysis
      timeout, or a key press. */
  datatype Event = FrameAt(frame: Frame, now: real) | Timeout | Key(key: string)

  predicate ValidEvents(es: seq<Event>) {
    forall i :: 0 <= i < |es| ==> (es[i].FrameAt? ==> ValidFrame(es[i].frame))
  }

  function Apply(c: Controller, e: Event): (o: Outcome)
    requires e.FrameAt? ==> ValidFrame(e.frame)
  {
    match e
    case FrameAt(f, now) => Step(c, f, now)
    case Timeout => CompleteAnalysis(c)
    case Key(k) => KeyDown(c, k)
  }

  /** The session after a run of events. */
  function Run(c: Controller, es: seq<Event>): Controller
    requires ValidEvents(es)
    decreases |es|
  {
    if |es| == 0 then c else Run(Apply(c, es[0]).next, es[1..])
  }

  /** Every run of events keeps the invariant. */
  lemma {:induction false} RunKeepsInv(c: Controller, es: seq<Event>)
    requires Inv(c) && ValidEvents(es)
    ensures Inv(Run(c, es))
    decreases |es|
  {
    if |es| > 0 {
      match es[0] {
        case FrameAt(f, now) => StepKeepsInv(c, f, now);
        case Timeout => CompleteKeepsInv(c);
        case Key(k) => KeyDownKeepsInv(c, k);
      }
      RunKeepsInv(Apply(c, es[0]).next, es[1..]);
    }
  }

  /** In every reachable session the scan progress is within 0..100, the
      recorded path is well formed, and an analysis is pending exactly while
      processing. */
  lemma Reachable(es: seq<Event>)
    requires ValidEvents(es)
    ensures var c := Run(InitialController(), es);
            0 <= c.app.scanProgress <= FullScan
            && PathWellFormed(c.app.drawingPath)
            && (c.app.isProcessing <==> c.pending.Some?)
  {
    InitialInv();
    RunKeepsInv(InitialController(), es);
  }
}
