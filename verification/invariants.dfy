/** What every reachable controller state satisfies, and the promises the
    frame updater keeps about the gate, the drawing timers and the stroke
    recorder (App.tsx:219-316). */
module Invariants {
  import opened Types
  import opened Geometry
  import opened Gestures
  import opened Control

  /** The highest scan progress a LOCKED session can hold: one decay below the
      highest SCANNING value. */
  const LockedCeiling: int := FullScan - 1 - ScanDecay

  /** The scan stays within 0..100; SCANNING is always short of 100; LOCKED
      is far enough below it that one open-palm frame cannot unlock. */
  predicate ProgressOk(app: AppState) {
    0 <= app.scanProgress <= FullScan
    && (app.mode == Scanning ==> app.scanProgress < FullScan)
    && (app.mode == Locked ==> app.scanProgress <= LockedCeiling)
  }

  /** A recorded path never starts with a pen-up, never has two pen-ups in a
      row, and consecutive samples are more than the minimum pen step apart. */
  predicate PathWellFormed(path: seq<DrawingPoint>) {
    (|path| > 0 ==> !path[0].isGap)
    && (forall i :: 0 < i < |path| && path[i].isGap ==> !path[i - 1].isGap)
    && (forall i :: 0 < i < |path| && !path[i].isGap && !path[i - 1].isGap ==>
          DistSq(path[i - 1].x, path[i - 1].y, path[i].x, path[i].y) > MinPenStepSq)
  }

  /** The pen is up: nothing recorded, or the last record is a pen-up. */
  predicate PathClosed(path: seq<DrawingPoint>) {
    |path| == 0 || Last(path).isGap
  }

  predicate Inv(c: Controller) {
    ProgressOk(c.app)
    && PathWellFormed(c.app.drawingPath)
    && (c.timers.fistHoldStart.Some? ==> PathClosed(c.app.drawingPath))
    && (c.app.isProcessing <==> c.pending.Some?)
  }

  /** The session the application starts in satisfies the invariant. */
  lemma InitialInv()
    ensures Inv(InitialController())
    ensures InitialController().app.mode == Locked && InitialController().app.scanProgress == 0
  {
  }

  // ---------------------------------------------------------------------------
  // The stroke recorder

  /** Every write the recorder makes keeps the path well formed; any gesture
      but PINCH leaves the pen up; PINCH leaves it down. */
  lemma {:induction false} PenWriteKeepsWellFormed(path: seq<DrawingPoint>, g: GestureType, pos: Point)
    requires PathWellFormed(path)
    ensures var w := PenWrite(path, g, pos);
            var path' := if w.Some? then w.value else path;
            PathWellFormed(path')
            && (g != Pinch ==> PathClosed(path'))
            && (g == Pinch ==> !PathClosed(path'))
  {
    var w := PenWrite(path, g, pos);
    if w.Some? {
      var p := w.value;
      assert p[..|path|] == path;
      assert forall i :: 0 <= i < |path| ==> p[i] == path[i];
      if g != Pinch {
        assert p[|path|] == Gap;
        assert !p[|path| - 1].isGap;
      }
    } else if g == Pinch {
      assert |path| > 0 && !Last(path).isGap;
    }
  }

  // ---------------------------------------------------------------------------
  // One step keeps the invariant

  /** The drawing sub-machine keeps the path well formed and the pen up while
      a fist hold is timed. */
  lemma DrawingKeepsPath(prev: AppState, g: GestureType, pos: Point, now: real, d: Draft)
    requires PathWellFormed(prev.drawingPath)
    requires d.next.drawingPath == prev.drawingPath
    requires d.timers.fistHoldStart.Some? ==> PathClosed(prev.drawingPath)
    ensures var d' := Drawing(prev, g, pos, now, d);
            PathWellFormed(d'.next.drawingPath)
            && (d'.timers.fistHoldStart.Some? ==> PathClosed(d'.next.drawingPath))
  {
    if prev.mode == Active {
      PenWriteKeepsWellFormed(prev.drawingPath, g, pos);
    }
  }

  lemma OneHandKeepsInv(c: Controller, d: Draft, h: Hand, now: real)
    requires Inv(c) && !c.app.isProcessing && ValidHand(h)
    requires d.next.drawingPath == c.app.drawingPath && d.next.scanProgress == c.app.scanProgress
    requires d.next.mode == c.app.mode && d.next.isProcessing == c.app.isProcessing
    requires d.timers == c.timers && d.pending == c.pending
    ensures Inv(Controller(OneHand(c.app, d, h, now).next, OneHand(c.app, d, h, now).timers, OneHand(c.app, d, h, now).pending))
  {
    var prev := c.app;
    var g := DetectGesture(h);
    var pos := Cursor(h);
    var d0 := d.(next := d.next.(gesture := HandGestureState(g, pos)));
    var d1 := ModeSwitches(prev, g, d0);
    var d2 := Tone(prev, pos, d1);
    var d3 := Gate(prev, g, now, d2);
    var d4 := Drawing(prev, g, pos, now, d3);
    assert d4 == OneHand(prev, d, h, now);
    DrawingKeepsPath(prev, g, pos, now, d3);
  }

  /** A frame keeps the invariant. */
  lemma StepKeepsInv(c: Controller, frame: Frame, now: real)
    requires Inv(c) && ValidFrame(frame)
    ensures Inv(Step(c, frame, now).next)
  {
    if !c.app.isProcessing {
      var d := Draft(Refreshed(c, frame).app, c.timers, c.pending, []);
      if |frame.hands| == 1 {
        OneHandKeepsInv(c, d, frame.hands[0], now);
      }
    }
  }

  /** Completing an analysis keeps the invariant. */
  lemma CompleteKeepsInv(c: Controller)
    requires Inv(c)
    ensures Inv(CompleteAnalysis(c).next)
  {
  }

  /** A key press keeps the invariant. */
  lemma KeyDownKeepsInv(c: Controller, key: string)
    requires Inv(c)
    ensures Inv(KeyDown(c, key).next)
  {
  }
}
