/**
 * The visual phase: a scan driven by a 100-millisecond timer. Each tick adds 2 to a
 * counter and shows it as the progress; the tick that takes the counter to 100
 * clears the timer and hands over fixed visual metrics. The start button is shown
 * only while no scan is running, and nothing ever turns the scan off again.
 */
module CameraPhase {
  import opened Optional
  import opened Repeats
  import opened Types

  /**
   * `scanning` is the component's `isScanning`; `current` is the counter the timer
   * closure keeps; `timerLive` says whether the interval is still set.
   */
  datatype CameraState = CameraState(scanning: bool, timerLive: bool, current: int, progress: int)

  const InitialCamera := CameraState(false, false, 0, 0)

  /** A press of the start button, or one timer tick. */
  datatype CameraEvent = Press | Tick

  /** The metrics handed over when the scan completes. */
  const VisualPayload := VisualMetrics(12, 0.94, 0.15, 45)

  /** Handles one event; the second component is the metrics handed over, if any. */
  function Step(s: CameraState, e: CameraEvent): (out: (CameraState, Option<VisualMetrics>))
    ensures out.1.Some? ==> s.timerLive && !out.0.timerLive && out.1.value == VisualPayload
    ensures e.Press? && s.scanning ==> out == (s, None)
    ensures e.Tick? && !s.timerLive ==> out == (s, None)
    ensures e.Tick? && s.timerLive ==> out.0.progress == out.0.current == s.current + 2
  {
    match e
    case Press =>
      // The button is not rendered while scanning.
      if s.scanning then (s, None)
      else (CameraState(true, true, 0, s.progress), None)
    case Tick =>
      if !s.timerLive then (s, None)
      else
        var current := s.current + 2;
        if current >= 100 then (CameraState(s.scanning, false, current, current), Some(VisualPayload))
        else (CameraState(s.scanning, true, current, current), None)
  }

  /** Handles the events in order, collecting the metrics handed over. */
  function Run(s: CameraState, es: seq<CameraEvent>): (CameraState, seq<VisualMetrics>)
    decreases |es|
  {
    if |es| == 0 then (s, [])
    else
      var step := Step(s, es[0]);
      var rest := Run(step.0, es[1..]);
      (rest.0, step.1.ToSeq() + rest.1)
  }

  /** The state `k` ticks into a scan: the counter and the progress both at `2k`. */
  function Scanning(k: nat): CameraState {
    CameraState(true, true, 2 * k, 2 * k)
  }

  /** Pressing start on the untouched component begins a scan at 0. */
  lemma PressStarts()
    ensures Step(InitialCamera, Press) == (Scanning(0), None)
  {
  }

  /** Each of the first 49 ticks adds 2 to the progress and hands nothing over. */
  lemma {:induction false} TicksFromStart(p: nat, k: nat)
    requires p + k <= 49
    ensures Run(Scanning(p), Repeat(k, Tick)) == (Scanning(p + k), [])
    decreases k
  {
    var ts := Repeat(k, Tick);
    if k > 0 {
      assert Step(Scanning(p), ts[0]) == (Scanning(p + 1), None);
      assert ts[1..] == Repeat(k - 1, Tick);
      TicksFromStart(p + 1, k - 1);
      var rest := Run(Scanning(p + 1), ts[1..]);
      assert [] + rest.1 == rest.1;
    } else {
      assert ts == [];
    }
  }

  /** Once the timer is cleared, ticks change nothing. */
  lemma {:induction false} TicksWhenCleared(s: CameraState, k: nat)
    requires !s.timerLive
    ensures Run(s, Repeat(k, Tick)) == (s, [])
    decreases k
  {
    var ts := Repeat(k, Tick);
    if k > 0 {
      assert Step(s, ts[0]) == (s, None);
      assert ts[1..] == Repeat(k - 1, Tick);
      TicksWhenCleared(s, k - 1);
      var rest := Run(s, ts[1..]);
      assert [] + rest.1 == rest.1;
    } else {
      assert ts == [];
    }
  }

  lemma {:induction false} RunSplit(s: CameraState, a: seq<CameraEvent>, b: seq<CameraEvent>)
    ensures Run(s, a + b).0 == Run(Run(s, a).0, b).0
    ensures Run(s, a + b).1 == Run(s, a).1 + Run(Run(s, a).0, b).1
    decreases |a|
  {
    if |a| == 0 {
      assert a + b == b;
    } else {
      var step := Step(s, a[0]);
      assert (a + b)[0] == a[0];
      assert (a + b)[1..] == a[1..] + b;
      RunSplit(step.0, a[1..], b);
      var tail := Run(step.0, a[1..]);
      assert step.1.ToSeq() + (tail.1 + Run(tail.0, b).1)
        == (step.1.ToSeq() + tail.1) + Run(tail.0, b).1;
    }
  }

  /**
   * The scan completes on its 50th tick, at 100 percent, and hands its metrics over
   * exactly once however long the ticks go on.
   */
  lemma ScanCompletes(n: nat)
    requires n >= 50
    ensures Run(Scanning(0), Repeat(n, Tick)) == (CameraState(true, false, 100, 100), [VisualPayload])
    ensures Run(Scanning(0), Repeat(49, Tick)).1 == []
  {
    TicksFromStart(0, 49);
    CompletesFrom(0, n - 50);
  }

  /** From `2p` percent, the scan completes on its `50 - p`th tick and then stays done. */
  lemma {:induction false} CompletesFrom(p: nat, k: nat)
    requires p <= 49
    ensures Run(Scanning(p), Repeat(50 - p + k, Tick)) == (CameraState(true, false, 100, 100), [VisualPayload])
  {
    var m := 49 - p;
    TicksFromStart(p, m);
    RepeatSplit(m + 1 + k, m, Tick);
    RunSplit(Scanning(p), Repeat(m, Tick), Repeat(k + 1, Tick));
    LastTickCompletes(k);
    assert [] + [VisualPayload] == [VisualPayload];
  }

  /** From 98 percent, the next tick completes the scan and later ticks change nothing. */
  lemma LastTickCompletes(k: nat)
    ensures Run(Scanning(49), Repeat(k + 1, Tick)) == (CameraState(true, false, 100, 100), [VisualPayload])
  {
    var done := CameraState(true, false, 100, 100);
    var ts := Repeat(k + 1, Tick);
    assert ts[0] == Tick && ts[1..] == Repeat(k, Tick);
    assert Step(Scanning(49), Tick) == (done, Some(VisualPayload));
    TicksWhenCleared(done, k);
    assert [VisualPayload] + [] == [VisualPayload];
  }

  /**
   * The reachable states: the progress shows the counter, an even number from 0 to
   * 100; a live timer belongs to a running scan below 100; before the scan nothing moves.
   */
  ghost predicate Inv(s: CameraState) {
    && s.progress == s.current
    && 0 <= s.current <= 100 && s.current % 2 == 0
    && (s.timerLive ==> s.scanning && s.current < 100)
    && (!s.scanning ==> s.current == 0 && !s.timerLive)
  }

  lemma StepKeepsInv(s: CameraState, e: CameraEvent)
    requires Inv(s)
    ensures Inv(Step(s, e).0)
  {
  }

  /** How many hand-overs a state can still make: none once the timer of a scan is cleared. */
  function Budget(s: CameraState): nat {
    if s.scanning && !s.timerLive then 0 else 1
  }

  /** From any reachable state the metrics are handed over at most as often as the budget allows. */
  lemma {:induction false} AtMostOneCompletion(s: CameraState, es: seq<CameraEvent>)
    requires Inv(s)
    ensures Inv(Run(s, es).0)
    ensures |Run(s, es).1| <= Budget(s)
    ensures forall i :: 0 <= i < |Run(s, es).1| ==> Run(s, es).1[i] == VisualPayload
    decreases |es|
  {
    if |es| > 0 {
      var step := Step(s, es[0]);
      StepKeepsInv(s, es[0]);
      AtMostOneCompletion(step.0, es[1..]);
      var rest := Run(step.0, es[1..]);
      assert step.1.Some? ==> Budget(step.0) == 0;
      assert Run(s, es).1 == step.1.ToSeq() + rest.1;
    }
  }

  /**
   * A session from the untouched component hands the metrics over at most once, and
   * they are the fixed ones: 12 blinks, a gaze stability of 0.94, an expression delta of
   * 0.15 and a motor lag of 45.
   */
  lemma SessionCompletesAtMostOnce(es: seq<CameraEvent>)
    ensures |Run(InitialCamera, es).1| <= 1
    ensures 0 <= Run(InitialCamera, es).0.progress <= 100
    ensures forall m :: m in Run(InitialCamera, es).1 ==>
      m.blinkRate == 12 && m.gazeStability == 0.94 && m.expressionDelta == 0.15 && m.motorLag == 45
  {
    AtMostOneCompletion(InitialCamera, es);
  }
}
