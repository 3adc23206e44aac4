/** The per-frame state updater (App.tsx:219-316), the deferred completion of
    an analysis (App.tsx:136-160) and the keyboard buffer (App.tsx:71-80).

    The updater builds `next` from a copy of `prev` and every guard reads
    `prev`, so a later write to the same field wins: THUMBS_UP in LOCKED first
    selects SKELETON and the biometric gate then writes LOCKED over it. The
    phases below run in the source's order over a `Draft` that carries `next`,
    the refs, the pending timeout and the effects requested so far. */
module Control {
  import opened Types
  import opened Geometry
  import opened Gestures
  import opened Expressions
  import opened Analysis

  /** One camera frame as delivered by the landmark source. */
  datatype Frame = Frame(hands: seq<Hand>, faces: seq<seq<Category>>)

  predicate ValidFrame(f: Frame) {
    forall i :: 0 <= i < |f.hands| ==> ValidHand(f.hands[i])
  }

  /** The fields a frame refreshes before the branch and no branch writes. */
  predicate SameSensors(a: AppState, b: AppState) {
    a.rawLandmarks == b.rawLandmarks && a.isMatrixActive == b.isMatrixActive && a.isSmiling == b.isSmiling
  }

  datatype Draft = Draft(next: AppState, timers: Timers, pending: Option<AnalysisJob>, effects: seq<Effect>)

  const FullScan: int := 100
  const ScanStep: int := 2
  const ScanDecay: int := 5
  const VictoryCooldownMs: real := 5000.0
  const FistHoldMs: real := 1500.0
  const FistRefractoryMs: real := 2000.0
  const ToneStep: real := 0.05
  /** The square of the 0.005 minimum pen movement. */
  const MinPenStepSq: real := 0.000025

  const MinecraftLine: string := "Entering Minecraft World Simulation."
  const SkeletonLine: string := "Skeleton Mode Active. Music output enabled."
  const DisengagedLine: string := "Modes disengaged. Standard interface active."
  const GrantedLine: string := "Access Granted."
  const ClearedLine: string := "Canvas Cleared."
  const AnalyzingLine: string := "Analyzing structural pattern..."

  /** A hold-start ref counts as set only when it is truthy: unset and 0 both read as unset. */
  predicate Armed(hold: Option<real>) {
    hold.Some? && hold.value != 0.0
  }

  /** The scan sound's cadence: frames whose millisecond timestamp floors to a multiple of 10. */
  predicate ScanTick(now: real) {
    now.Floor % 10 == 0
  }

  function Last(path: seq<DrawingPoint>): DrawingPoint
    requires |path| > 0
  {
    path[|path| - 1]
  }

  /** The cursor: the index fingertip, mirrored left-to-right. */
  function Cursor(h: Hand): Point
    requires ValidHand(h)
  {
    Point(1.0 - h[IndexTip].x, h[IndexTip].y)
  }

  // ---------------------------------------------------------------------------
  // Two hands (App.tsx:231-240)

  /** Two open palms enter MINECRAFT (unless already there), clearing the
      hologram text and announcing it; any other pair changes nothing. */
  function TwoHands(prev: AppState, d: Draft, h1: Hand, h2: Hand): (d': Draft)
    requires ValidHand(h1) && ValidHand(h2)
    ensures SameSensors(d'.next, d.next)
    ensures d'.timers == d.timers && d'.pending == d.pending
    ensures d'.next.drawingPath == d.next.drawingPath && d'.next.scanProgress == d.next.scanProgress
    ensures d'.next.userTypedText == d.next.userTypedText && d'.next.isProcessing == d.next.isProcessing
    ensures DetectGesture(h1) == OpenPalm && DetectGesture(h2) == OpenPalm && prev.mode != Minecraft ==>
              d'.next == d.next.(mode := Minecraft, hologramText := "") && d'.effects == d.effects + [Speak(MinecraftLine)]
    ensures !(DetectGesture(h1) == OpenPalm && DetectGesture(h2) == OpenPalm) || prev.mode == Minecraft ==> d' == d
  {
    var g1 := DetectGesture(h1);
    var g2 := DetectGesture(h2);
    if g1 == OpenPalm && g2 == OpenPalm && prev.mode != Minecraft then
      d.(next := d.next.(mode := Minecraft, hologramText := ""), effects := d.effects + [Speak(MinecraftLine)])
    else d
  }

  // ---------------------------------------------------------------------------
  // One hand (App.tsx:241-308)

  /** THUMBS_UP outside SKELETON selects SKELETON; CLOSED_FIST in MINECRAFT or
      SKELETON selects ACTIVE (App.tsx:247-256). */
  function ModeSwitches(prev: AppState, g: GestureType, d: Draft): (d': Draft)
    ensures SameSensors(d'.next, d.next)
    ensures d'.next.gesture == d.next.gesture
    ensures d'.timers == d.timers && d'.pending == d.pending
    ensures d'.next.drawingPath == d.next.drawingPath && d'.next.scanProgress == d.next.scanProgress
    ensures d'.next.userTypedText == d.next.userTypedText && d'.next.isProcessing == d.next.isProcessing
    ensures g == ThumbsUp && prev.mode != Skeleton ==>
              d'.next.mode == Skeleton && d'.next.hologramText == ""
              && d'.effects == d.effects + [Speak(SkeletonLine)]
    ensures g == ClosedFist && (prev.mode == Minecraft || prev.mode == Skeleton) ==>
              d'.next.mode == Active && d'.next.hologramText == d.next.hologramText
              && d'.effects == d.effects + [Speak(DisengagedLine)]
    ensures (!(g == ThumbsUp && prev.mode != Skeleton) && !(g == ClosedFist && (prev.mode == Minecraft || prev.mode == Skeleton)))
              ==> d' == d
  {
    var d1 :=
      if g == ThumbsUp && prev.mode != Skeleton then
        d.(next := d.next.(mode := Skeleton, hologramText := ""), effects := d.effects + [Speak(SkeletonLine)])
      else d;
    if g == ClosedFist && (prev.mode == Minecraft || prev.mode == Skeleton) then
      d1.(next := d1.next.(mode := Active), effects := d1.effects + [Speak(DisengagedLine)])
    else d1
  }

  /** In SKELETON a vertical move of more than 0.05 since the last tone plays a
      tone keyed to the height and remembers it (App.tsx:258-264). */
  function Tone(prev: AppState, pos: Point, d: Draft): (d': Draft)
    ensures d'.next == d.next && d'.pending == d.pending
    ensures d'.timers.fistHoldStart == d.timers.fistHoldStart
    ensures d'.timers.victoryCooldown == d.timers.victoryCooldown
    ensures prev.mode == Skeleton && Abs(d.timers.lastHandY - pos.y) > ToneStep ==>
              d'.timers.lastHandY == pos.y && d'.effects == d.effects + [PlayTone(1.0 - pos.y)]
    ensures !(prev.mode == Skeleton && Abs(d.timers.lastHandY - pos.y) > ToneStep) ==> d' == d
    ensures Abs(d'.timers.lastHandY - pos.y) <= ToneStep || d'.timers.lastHandY == d.timers.lastHandY
  {
    if prev.mode == Skeleton && Abs(d.timers.lastHandY - pos.y) > ToneStep then
      d.(timers := d.timers.(lastHandY := pos.y), effects := d.effects + [PlayTone(1.0 - pos.y)])
    else d
  }

  /** The biometric gate (App.tsx:266-279): in LOCKED or SCANNING an open palm
      advances the scan by 2 up to 100 and unlocks at 100; any other gesture
      falls back to LOCKED and decays the scan by 5 down to 0. */
  function Gate(prev: AppState, g: GestureType, now: real, d: Draft): (d': Draft)
    ensures SameSensors(d'.next, d.next)
    ensures d'.next.gesture == d.next.gesture
    ensures d'.next.gesture == d.next.gesture
    ensures d'.timers == d.timers && d'.pending == d.pending
    ensures d'.next.drawingPath == d.next.drawingPath
    ensures d'.next.userTypedText == d.next.userTypedText && d'.next.isProcessing == d.next.isProcessing
    ensures prev.mode != Locked && prev.mode != Scanning ==> d' == d
    ensures (prev.mode == Locked || prev.mode == Scanning) && g == OpenPalm ==>
              var p := if prev.scanProgress + ScanStep < FullScan then prev.scanProgress + ScanStep else FullScan;
              d'.next.scanProgress == p && (d'.next.mode == Active <==> p == FullScan)
              && (p != FullScan ==> d'.next.mode == Scanning)
              && d' == d.(next := d.next.(mode := d'.next.mode, scanProgress := p),
                          effects := d.effects + (if p == FullScan then [SelectSound, Speak(GrantedLine)]
                                                  else if ScanTick(now) then [ScanSound] else []))
    ensures (prev.mode == Locked || prev.mode == Scanning) && g != OpenPalm ==>
              var p := if prev.scanProgress - ScanDecay > 0 then prev.scanProgress - ScanDecay else 0;
              d' == d.(next := d.next.(mode := Locked, scanProgress := p))
  {
    if prev.mode == Locked || prev.mode == Scanning then
      if g == OpenPalm then
        var p := if FullScan < prev.scanProgress + ScanStep then FullScan else prev.scanProgress + ScanStep;
        if p >= FullScan then
          d.(next := d.next.(mode := Active, scanProgress := p),
             effects := d.effects + [SelectSound, Speak(GrantedLine)])
        else
          d.(next := d.next.(mode := Scanning, scanProgress := p),
             effects := d.effects + (if ScanTick(now) then [ScanSound] else []))
      else
        var p := if 0 > prev.scanProgress - ScanDecay then 0 else prev.scanProgress - ScanDecay;
        d.(next := d.next.(mode := Locked, scanProgress := p))
    else d
  }

  /** The victory trigger and the fist-hold clear (App.tsx:282-297). */
  function Timing(prev: AppState, g: GestureType, now: real, d: Draft): (d': Draft)
    ensures SameSensors(d'.next, d.next)
    ensures d'.next.gesture == d.next.gesture
    ensures d'.timers.lastHandY == d.timers.lastHandY
    ensures d'.next.mode == d.next.mode && d'.next.scanProgress == d.next.scanProgress
    ensures var fires := g == Victory && now - d.timers.victoryCooldown > VictoryCooldownMs;
            (fires ==> d'.pending == Some(AnalysisJob(prev.drawingPath, prev.userTypedText))
                       && d'.next == d.next.(isProcessing := true)
                       && d'.timers == d.timers.(victoryCooldown := now)
                       && d'.effects == d.effects + [Speak(AnalyzingLine), ScanSound])
            && (!fires ==> d'.pending == d.pending && d'.next.isProcessing == d.next.isProcessing
                           && d'.timers.victoryCooldown == d.timers.victoryCooldown)
            && (!fires && g != ClosedFist ==> d' == d.(timers := d.timers.(fistHoldStart := None)))
    ensures g == ClosedFist && !Armed(d.timers.fistHoldStart) ==>
              d'.timers.fistHoldStart == Some(now) && d'.next == d.next && d'.effects == d.effects
    ensures g == ClosedFist && Armed(d.timers.fistHoldStart) ==>
              var clears := now - d.timers.fistHoldStart.value > FistHoldMs;
              (clears ==> d'.next.drawingPath == [] && d'.next.userTypedText == "" && d'.next.hologramText == ""
                          && d'.timers.fistHoldStart == Some(now + FistRefractoryMs)
                          && d'.effects == d.effects + [Speak(ClearedLine)])
              && (!clears ==> d' == d)
  {
    if g == Victory && now - d.timers.victoryCooldown > VictoryCooldownMs then
      d.(next := d.next.(isProcessing := true),
         timers := d.timers.(victoryCooldown := now),
         pending := Some(AnalysisJob(prev.drawingPath, prev.userTypedText)),
         effects := d.effects + [Speak(AnalyzingLine), ScanSound])
    else if g == ClosedFist then
      if !Armed(d.timers.fistHoldStart) then
        d.(timers := d.timers.(fistHoldStart := Some(now)))
      else if now - d.timers.fistHoldStart.value > FistHoldMs then
        d.(next := d.next.(drawingPath := [], userTypedText := "", hologramText := ""),
           timers := d.timers.(fistHoldStart := Some(now + FistRefractoryMs)),
           effects := d.effects + [Speak(ClearedLine)])
      else d
    else
      d.(timers := d.timers.(fistHoldStart := None))
  }

  /** The stroke recorder's write, read from `prev`'s path (App.tsx:299-307):
      PINCH appends the cursor when the path is empty, ends in a pen-up, or the
      cursor moved more than 0.005 from the last sample; any other gesture
      appends a pen-up exactly when the path ends in a sample. `None` means
      no write. */
  function PenWrite(path: seq<DrawingPoint>, g: GestureType, pos: Point): (w: Option<seq<DrawingPoint>>)
    ensures g == Pinch ==>
              (w.Some? <==> |path| == 0 || Last(path).isGap
                            || DistSq(Last(path).x, Last(path).y, pos.x, pos.y) > MinPenStepSq)
              && (w.Some? ==> w.value == path + [DrawingPoint(pos.x, pos.y, false)])
    ensures g != Pinch ==>
              (w.Some? <==> |path| > 0 && !Last(path).isGap) && (w.Some? ==> w.value == path + [Gap])
  {
    if g == Pinch then
      var p := DrawingPoint(pos.x, pos.y, false);
      if |path| == 0 || Last(path).isGap || DistSq(Last(path).x, Last(path).y, p.x, p.y) > MinPenStepSq then
        Some(path + [p])
      else None
    else if |path| > 0 && !Last(path).isGap then Some(path + [Gap])
    else None
  }

  /** The ACTIVE drawing sub-machine (App.tsx:281-308). */
  function Drawing(prev: AppState, g: GestureType, pos: Point, now: real, d: Draft): (d': Draft)
    ensures SameSensors(d'.next, d.next)
    ensures d'.next.gesture == d.next.gesture
    ensures d'.next.mode == d.next.mode && d'.next.scanProgress == d.next.scanProgress
    ensures prev.mode != Active ==> d' == d
    ensures prev.mode == Active ==>
              var t := Timing(prev, g, now, d);
              var w := PenWrite(prev.drawingPath, g, pos);
              d' == t.(next := t.next.(drawingPath := if w.Some? then w.value else t.next.drawingPath))
    ensures prev.mode == Active && g == ClosedFist && Armed(d.timers.fistHoldStart)
            && now - d.timers.fistHoldStart.value > FistHoldMs
            && (|prev.drawingPath| == 0 || Last(prev.drawingPath).isGap) ==>
              d'.next.drawingPath == [] && d'.next.userTypedText == ""
  {
    if prev.mode == Active then
      var d1 := Timing(prev, g, now, d);
      match PenWrite(prev.drawingPath, g, pos)
      case Some(path) => d1.(next := d1.next.(drawingPath := path))
      case None => d1
    else d
  }

  /** One detected hand: classify, echo the gesture and cursor, then run the
      phases in the source's order. */
  function OneHand(prev: AppState, d: Draft, h: Hand, now: real): (d': Draft)
    requires ValidHand(h)
    ensures SameSensors(d'.next, d.next)
    ensures d'.next.gesture == HandGestureState(DetectGesture(h), Cursor(h))
  {
    var g := DetectGesture(h);
    var pos := Cursor(h);
    var d0 := d.(next := d.next.(gesture := HandGestureState(g, pos)));
    var d1 := ModeSwitches(prev, g, d0);
    var d2 := Tone(prev, pos, d1);
    var d3 := Gate(prev, g, now, d2);
    Drawing(prev, g, pos, now, d3)
  }

  // ---------------------------------------------------------------------------
  // No hands (App.tsx:309-314)

  /** Losing the hand abandons a scan in progress; every other mode is kept. */
  function NoHands(prev: AppState, d: Draft): (d': Draft)
    ensures SameSensors(d'.next, d.next)
    ensures d'.timers == d.timers && d'.pending == d.pending && d'.effects == d.effects
    ensures prev.mode == Scanning ==> d'.next == d.next.(mode := Locked, scanProgress := 0)
    ensures prev.mode != Scanning ==> d' == d
  {
    if prev.mode == Scanning then d.(next := d.next.(mode := Locked, scanProgress := 0)) else d
  }

  // ---------------------------------------------------------------------------
  // The frame step

  /** The hand count selects the branch: two hands, one hand, or none (any other count). */
  function Branch(prev: AppState, d: Draft, hands: seq<Hand>, now: real): (d': Draft)
    requires forall i :: 0 <= i < |hands| ==> ValidHand(hands[i])
    ensures SameSensors(d'.next, d.next)
    ensures |hands| == 1 ==> d'.next.gesture == HandGestureState(DetectGesture(hands[0]), Cursor(hands[0]))
    ensures |hands| != 1 ==> d'.next.gesture == d.next.gesture && d'.timers == d.timers && d'.pending == d.pending
    ensures |hands| == 2 ==> d'.next.mode == d.next.mode || d'.next.mode == Minecraft
    ensures |hands| != 1 && |hands| != 2 ==>
              d'.effects == d.effects
              && d'.next == (if prev.mode == Scanning then d.next.(mode := Locked, scanProgress := 0) else d.next)
  {
    if |hands| == 2 then TwoHands(prev, d, hands[0], hands[1])
    else if |hands| == 1 then OneHand(prev, d, hands[0], now)
    else NoHands(prev, d)
  }

  /** The session after a frame's sensor refresh alone: the expression flags
      and the raw hands are replaced, nothing else changes. */
  function Refreshed(c: Controller, f: Frame): (c': Controller)
    ensures c'.timers == c.timers && c'.pending == c.pending
    ensures c'.app.rawLandmarks == f.hands
    ensures c'.app.isMatrixActive == ExpressionFlags(f.faces).matrix
    ensures c'.app.isSmiling == ExpressionFlags(f.faces).smiling
    ensures c'.app == c.app.(isMatrixActive := c'.app.isMatrixActive, isSmiling := c'.app.isSmiling, rawLandmarks := f.hands)
  {
    var flags := ExpressionFlags(f.faces);
    c.(app := c.app.(isMatrixActive := flags.matrix, isSmiling := flags.smiling, rawLandmarks := f.hands))
  }

  /** One pass of the frame updater. While an analysis is in flight the
      session and refs are returned untouched and nothing is requested;
      otherwise the expression flags and raw hands are always refreshed and
      the hand count selects the branch. */
  function Step(c: Controller, frame: Frame, now: real): (o: Outcome)
    requires ValidFrame(frame)
    ensures c.app.isProcessing ==> o == Outcome(c, [])
    ensures !c.app.isProcessing ==>
              o.next.app.rawLandmarks == frame.hands
              && o.next.app.isMatrixActive == ExpressionFlags(frame.faces).matrix
              && o.next.app.isSmiling == ExpressionFlags(frame.faces).smiling
  {
    if c.app.isProcessing then Outcome(c, [])
    else
      var d' := Branch(c.app, Draft(Refreshed(c, frame).app, c.timers, c.pending, []), frame.hands, now);
      Outcome(Controller(d'.next, d'.timers, d'.pending), d'.effects)
  }

  /** The deferred half of an analysis: the timeout fires, clears the
      processing flag, shows the result and announces it. Nothing else in the
      session changes, whatever the mode is by then. */
  function CompleteAnalysis(c: Controller): (o: Outcome)
    ensures c.pending.None? ==> o == Outcome(c, [])
    ensures c.pending.Some? ==>
              var result := AnalysisResult(c.pending.value.path, c.pending.value.typed);
              o.next.app == c.app.(isProcessing := false, hologramText := result)
              && o.next.timers == c.timers && o.next.pending == None
              && o.effects == [Speak(Announcement(result)), PhoenixSound]
  {
    match c.pending
    case None => Outcome(c, [])
    case Some(job) =>
      var result := AnalysisResult(job.path, job.typed);
      Outcome(c.(app := c.app.(isProcessing := false, hologramText := result), pending := None),
              [Speak(Announcement(result)), PhoenixSound])
  }

  // ---------------------------------------------------------------------------
  // Keyboard (App.tsx:71-80)

  const BackspaceKey: string := "Backspace"

  /** The upper-case form of one character (ASCII letters only). */
  function UpperChar(ch: char): (u: char)
    ensures 'a' <= ch <= 'z' ==> 'A' <= u <= 'Z' && u as int - ch as int == 'A' as int - 'a' as int
    ensures !('a' <= ch <= 'z') ==> u == ch
  {
    if 'a' <= ch <= 'z' then (ch as int - 'a' as int + 'A' as int) as char else ch
  }

  function Upper(s: string): (u: string)
    ensures |u| == |s|
    ensures forall i :: 0 <= i < |s| ==> u[i] == UpperChar(s[i])
  {
    seq(|s|, i requires 0 <= i < |s| => UpperChar(s[i]))
  }

  /** A key press. Outside ACTIVE nothing happens. Backspace drops the last
      typed character (none on empty text) and shows the remaining text; a
      one-character key is appended, shown upper-cased, and clicks; any other
      key is ignored. */
  function KeyDown(c: Controller, key: string): (o: Outcome)
    ensures c.app.mode != Active ==> o == Outcome(c, [])
    ensures o.next.timers == c.timers && o.next.pending == c.pending
    ensures o.next.app == c.app.(userTypedText := o.next.app.userTypedText, hologramText := o.next.app.hologramText)
    ensures c.app.mode == Active && key == BackspaceKey ==>
              var t := c.app.userTypedText;
              o.next.app.userTypedText == (if |t| == 0 then t else t[..|t| - 1])
              && o.next.app.hologramText == o.next.app.userTypedText && o.effects == []
    ensures c.app.mode == Active && key != BackspaceKey && |key| == 1 ==>
              o.next.app.userTypedText == c.app.userTypedText + key
              && o.next.app.hologramText == Upper(key) && o.effects == [PhoenixSound]
    ensures c.app.mode == Active && key != BackspaceKey && |key| != 1 ==> o == Outcome(c, [])
  {
    if c.app.mode != Active then Outcome(c, [])
    else if key == BackspaceKey then
      var t := c.app.userTypedText;
      var t' := if |t| == 0 then t else t[..|t| - 1];
      Outcome(c.(app := c.app.(userTypedText := t', hologramText := t')), [])
    else if |key| == 1 then
      Outcome(c.(app := c.app.(userTypedText := c.app.userTypedText + key, hologramText := Upper(key))),
              [PhoenixSound])
    else Outcome(c, [])
  }

  /** Typing a character and then pressing Backspace restores the typed text. */
  lemma TypeThenBackspace(c: Controller, ch: char)
    requires c.app.mode == Active
    ensures KeyDown(KeyDown(c, [ch]).next, BackspaceKey).next.app.userTypedText == c.app.userTypedText
  {
    var t := c.app.userTypedText;
    assert (t + [ch])[..|t|] == t;
  }
}
