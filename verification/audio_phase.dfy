/**
 * The acoustic phase: a 3-minute recording driven by a 1.8-second timer. Each tick
 * moves the progress bar by one percent and the countdown by 1.8 seconds; the tick
 * that finds the bar already full stops the recording. One button starts the recording or,
 * while recording, finishes it early. Either way the same fixed metrics are handed over.
 */
module AudioPhase {
  import opened Optional
  import opened Repeats
  import opened Strings
  import opened Types
  import opened ClockDisplay

  // ---------------------------------------------------------------------------
  // Clock display
  // ---------------------------------------------------------------------------

  /** The integer part of `x`, rounding toward zero. */
  function Trunc(x: real): int {
    if x >= 0.0 then x.Floor else -((-x).Floor)
  }

  /** JavaScript's `x % y`: the remainder takes the sign of the dividend. */
  function JsRemainder(x: real, y: real): real
    requires y != 0.0
  {
    x - y * Trunc(x / y) as real
  }

  lemma FloorIs(x: real, k: int)
    requires k as real <= x < k as real + 1.0
    ensures x.Floor == k
  {
  }

  /** For a non-negative time the minutes and seconds shown are those of its whole seconds. */
  lemma ClockParts(seconds: real)
    requires seconds >= 0.0
    ensures (seconds / 60.0).Floor == seconds.Floor / 60
    ensures JsRemainder(seconds, 60.0).Floor == seconds.Floor % 60
  {
    var n := seconds.Floor;
    var q, r := n / 60, n % 60;
    assert 60 * q <= n < 60 * q + 60;
    FloorIs(seconds / 60.0, q);
    assert Trunc(seconds / 60.0) == q;
    FloorIs(JsRemainder(seconds, 60.0), r);
  }

  /**
   * `formatTime`: whole minutes, a colon, and whole seconds padded to two digits. The
   * display of a non-negative time reads back as its whole number of seconds.
   */
  function FormatTime(seconds: real): (display: string)
    ensures seconds >= 0.0 ==> ParseClock(display) == Some(seconds.Floor)
  {
    var mins := (seconds / 60.0).Floor;
    var secs := JsRemainder(seconds, 60.0).Floor;
    var display := Clock(IntToString(mins), PadStart(IntToString(secs), 2, '0'));
    if seconds >= 0.0 then
      ClockParts(seconds);
      ParseClockOf(seconds.Floor / 60, seconds.Floor % 60, seconds.Floor);
      display
    else display
  }

  /** The countdown shows 3:00 before the recording starts. */
  lemma InitialDisplay()
    ensures FormatTime(180.0) == "3:00"
  {
    FloorIs(180.0 / 60.0, 3);
    FloorIs(JsRemainder(180.0, 60.0), 0);
    assert PadStart("0", 2, '0') == "00";
  }

  // ---------------------------------------------------------------------------
  // Recording state machine
  // ---------------------------------------------------------------------------

  /** `recording` is true exactly while the timer is live. */
  datatype AudioState = AudioState(recording: bool, progress: int, secondsRemaining: real)

  const InitialAudio := AudioState(false, 0, 180.0)

  /** A press of the single start/finish button, or one timer tick. */
  datatype AudioEvent = Press | Tick

  /** The metrics handed over when the recording stops; `prompt` is the question shown. */
  function Payload(prompt: string): AudioMetrics {
    AudioMetrics(
      "Extended philosophical discourse regarding: " + prompt,
      12, ["um", "uh", "actually", "like"], 135, 0.82, 180)
  }

  /** `Math.max(0, prev - 1.8)` */
  function Countdown(seconds: real): (r: real)
    ensures r >= 0.0
    ensures seconds >= 1.8 ==> r == seconds - 1.8
  {
    if seconds - 1.8 > 0.0 then seconds - 1.8 else 0.0
  }

  /** Handles one event; the second component is the metrics handed over, if any. */
  function Step(s: AudioState, e: AudioEvent, prompt: string): (out: (AudioState, Option<AudioMetrics>))
    ensures out.1.Some? ==> s.recording && !out.0.recording && out.1.value == Payload(prompt)
    ensures e.Tick? && !s.recording ==> out == (s, None)
  {
    match e
    case Press =>
      if s.recording then (s.(recording := false), Some(Payload(prompt)))
      else (AudioState(true, 0, 180.0), None)
    case Tick =>
      if !s.recording then (s, None)
      else if s.progress >= 100 then
        (AudioState(false, 100, Countdown(s.secondsRemaining)), Some(Payload(prompt)))
      else (AudioState(true, s.progress + 1, Countdown(s.secondsRemaining)), None)
  }

  /** Handles the events in order, collecting the metrics handed over. */
  function Run(s: AudioState, es: seq<AudioEvent>, prompt: string): (AudioState, seq<AudioMetrics>)
    decreases |es|
  {
    if |es| == 0 then (s, [])
    else
      var step := Step(s, es[0], prompt);
      var rest := Run(step.0, es[1..], prompt);
      (rest.0, step.1.ToSeq() + rest.1)
  }

  /** Progress stays within 0..100 and the countdown within 0..180 seconds. */
  ghost predicate Inv(s: AudioState) {
    0 <= s.progress <= 100 && 0.0 <= s.secondsRemaining <= 180.0
  }

  lemma StepKeepsInv(s: AudioState, e: AudioEvent, prompt: string)
    requires Inv(s)
    ensures Inv(Step(s, e, prompt).0)
  {
  }

  lemma {:induction false} RunKeepsInv(s: AudioState, es: seq<AudioEvent>, prompt: string)
    requires Inv(s)
    ensures Inv(Run(s, es, prompt).0)
    decreases |es|
  {
    if |es| > 0 {
      StepKeepsInv(s, es[0], prompt);
      RunKeepsInv(Step(s, es[0], prompt).0, es[1..], prompt);
    }
  }

  /** The state `p` ticks after starting: `p` percent done, 1.8 seconds less per tick. */
  function After(p: nat): AudioState {
    AudioState(true, p, 180.0 - 1.8 * p as real)
  }

  /** Starting resets the bar to 0 and the countdown to 180 seconds. */
  lemma PressStarts(s: AudioState, prompt: string)
    requires !s.recording
    ensures Step(s, Press, prompt) == (After(0), None)
  {
  }

  /** Each of the first 100 ticks after starting adds exactly one percent and hands nothing over. */
  lemma {:induction false} TicksFromStart(p: nat, k: nat, prompt: string)
    requires p + k <= 100
    ensures Run(After(p), Repeat(k, Tick), prompt) == (After(p + k), [])
    decreases k
  {
    var ts := Repeat(k, Tick);
    if k > 0 {
      assert Step(After(p), ts[0], prompt) == (After(p + 1), None);
      assert ts[1..] == Repeat(k - 1, Tick);
      TicksFromStart(p + 1, k - 1, prompt);
      var rest := Run(After(p + 1), ts[1..], prompt);
      assert [] + rest.1 == rest.1;
    } else {
      assert ts == [];
    }
  }

  /** Once stopped, further ticks change nothing (the timer is cleared). */
  lemma {:induction false} TicksWhenStopped(s: AudioState, k: nat, prompt: string)
    requires !s.recording
    ensures Run(s, Repeat(k, Tick), prompt) == (s, [])
    decreases k
  {
    var ts := Repeat(k, Tick);
    if k > 0 {
      assert Step(s, ts[0], prompt) == (s, None);
      assert ts[1..] == Repeat(k - 1, Tick);
      TicksWhenStopped(s, k - 1, prompt);
      var rest := Run(s, ts[1..], prompt);
      assert [] + rest.1 == rest.1;
    } else {
      assert ts == [];
    }
  }

  /**
   * Left alone, the recording stops on the 101st tick, the first to find the bar full, and
   * hands its metrics over exactly once however long the ticks go on.
   */
  lemma RunsToCompletion(n: nat, prompt: string)
    requires n >= 101
    ensures Run(After(0), Repeat(n, Tick), prompt) == (AudioState(false, 100, 0.0), [Payload(prompt)])
    ensures Run(After(0), Repeat(100, Tick), prompt).1 == []
  {
    TicksFromStart(0, 100, prompt);
    StopsFrom(0, n - 101, prompt);
  }

  /** From `p` percent, the recording stops on its `101 - p`th tick and then stays stopped. */
  lemma {:induction false} StopsFrom(p: nat, k: nat, prompt: string)
    requires p <= 100
    ensures Run(After(p), Repeat(101 - p + k, Tick), prompt) == (AudioState(false, 100, 0.0), [Payload(prompt)])
  {
    var m := 100 - p;
    TicksFromStart(p, m, prompt);
    RepeatSplit(m + 1 + k, m, Tick);
    RunSplit(After(p), Repeat(m, Tick), Repeat(k + 1, Tick), prompt);
    LastTickStops(k, prompt);
    assert [] + [Payload(prompt)] == [Payload(prompt)];
  }

  /** With the bar full, the next tick stops the recording and later ticks change nothing. */
  lemma LastTickStops(k: nat, prompt: string)
    ensures Run(After(100), Repeat(k + 1, Tick), prompt) == (AudioState(false, 100, 0.0), [Payload(prompt)])
  {
    var stopped := AudioState(false, 100, 0.0);
    var ts := Repeat(k + 1, Tick);
    assert ts[0] == Tick && ts[1..] == Repeat(k, Tick);
    assert Step(After(100), Tick, prompt) == (stopped, Some(Payload(prompt)));
    TicksWhenStopped(stopped, k, prompt);
    assert [Payload(prompt)] + [] == [Payload(prompt)];
  }

  lemma {:induction false} RunSplit(s: AudioState, a: seq<AudioEvent>, b: seq<AudioEvent>, prompt: string)
    ensures Run(s, a + b, prompt).0 == Run(Run(s, a, prompt).0, b, prompt).0
    ensures Run(s, a + b, prompt).1 == Run(s, a, prompt).1 + Run(Run(s, a, prompt).0, b, prompt).1
    decreases |a|
  {
    if |a| == 0 {
      assert a + b == b;
    } else {
      var step := Step(s, a[0], prompt);
      assert (a + b)[0] == a[0];
      assert (a + b)[1..] == a[1..] + b;
      RunSplit(step.0, a[1..], b, prompt);
      var tail := Run(step.0, a[1..], prompt);
      assert step.1.ToSeq() + (tail.1 + Run(tail.0, b, prompt).1)
        == (step.1.ToSeq() + tail.1) + Run(tail.0, b, prompt).1;
    }
  }

  /**
   * Whatever happens, every hand-over carries the same fixed metrics: 12 pauses, the
   * fillers "um", "uh", "actually", "like", 135 words a minute, a lexical diversity of
   * 0.82, a 180-second duration, and a transcript that ends with the prompt.
   */
  lemma {:induction false} HandOverIsFixed(s: AudioState, es: seq<AudioEvent>, prompt: string)
    ensures forall m :: m in Run(s, es, prompt).1 ==> m == Payload(prompt)
    ensures forall m :: m in Run(s, es, prompt).1 ==>
      && m.pauseCount == 12 && m.fillerWords == ["um", "uh", "actually", "like"]
      && m.speechRate == 135 && m.lexicalDiversity == 0.82 && m.analysisDuration == 180
      && |m.transcript| >= |prompt| && m.transcript[|m.transcript| - |prompt|..] == prompt
    decreases |es|
  {
    var t := Payload(prompt).transcript;
    assert t[|t| - |prompt|..] == prompt;
    if |es| > 0 {
      var step := Step(s, es[0], prompt);
      HandOverIsFixed(step.0, es[1..], prompt);
      assert Run(s, es, prompt).1 == step.1.ToSeq() + Run(step.0, es[1..], prompt).1;
    }
  }

  /** Finishing early hands over the same metrics as running to the end. */
  lemma EarlyStopMatchesCompletion(p: nat, prompt: string)
    requires p <= 100
    ensures Step(After(p), Press, prompt).1 == Some(Payload(prompt))
    ensures Step(After(100), Tick, prompt).1 == Some(Payload(prompt))
    ensures Payload(prompt).pauseCount == 12 && Payload(prompt).speechRate == 135
    ensures Payload(prompt).analysisDuration == 180
  {
  }
}
