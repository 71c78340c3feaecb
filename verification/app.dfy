/**
 * The page that walks through the assessment: a stage machine driven by the panels'
 * buttons, the record of metrics the phases hand over, and the final analysis whose
 * outcome, success or failure, always lands on the report stage.
 */
module App {
  import opened Optional
  import opened Json
  import opened Types
  import opened GeminiService
  import ReportDashboard

  // ---------------------------------------------------------------------------
  // The collected data and its shallow merge
  // ---------------------------------------------------------------------------

  /** The five properties of the collected record, to speak of them one at a time. */
  datatype DataKey = AudioKey | VisualKey | TextKey | CognitiveKey | BehavioralDataKey

  /** Whether property `k` is present in `d`. */
  predicate Has(d: AssessmentData, k: DataKey) {
    match k
    case AudioKey => d.audioMetrics.Some?
    case VisualKey => d.visualMetrics.Some?
    case TextKey => d.textMetrics.Some?
    case CognitiveKey => d.cognitiveScores.Some?
    case BehavioralDataKey => d.behavioralData.Some?
  }

  /** Whether `a` and `b` hold the same value (or both nothing) under property `k`. */
  predicate SameAt(a: AssessmentData, b: AssessmentData, k: DataKey) {
    match k
    case AudioKey => a.audioMetrics == b.audioMetrics
    case VisualKey => a.visualMetrics == b.visualMetrics
    case TextKey => a.textMetrics == b.textMetrics
    case CognitiveKey => a.cognitiveScores == b.cognitiveScores
    case BehavioralDataKey => a.behavioralData == b.behavioralData
  }

  /** Two records that agree under every property are the same record. */
  lemma SameEverywhere(a: AssessmentData, b: AssessmentData)
    requires forall k :: SameAt(a, b, k)
    ensures a == b
  {
    assert SameAt(a, b, AudioKey) && SameAt(a, b, VisualKey) && SameAt(a, b, TextKey);
    assert SameAt(a, b, CognitiveKey) && SameAt(a, b, BehavioralDataKey);
  }

  /**
   * `updateData`: `{ ...prev, ...newData }`. The partial update is a record whose
   * present properties replace those of `prev`; its absent ones leave `prev` alone.
   */
  function UpdateData(prev: AssessmentData, update: AssessmentData): (r: AssessmentData)
    ensures forall k :: Has(update, k) ==> SameAt(r, update, k)
    ensures forall k :: !Has(update, k) ==> SameAt(r, prev, k)
    ensures forall k :: Has(r, k) <==> Has(prev, k) || Has(update, k)
  {
    AssessmentData(
      if update.audioMetrics.Some? then update.audioMetrics else prev.audioMetrics,
      if update.visualMetrics.Some? then update.visualMetrics else prev.visualMetrics,
      if update.textMetrics.Some? then update.textMetrics else prev.textMetrics,
      if update.cognitiveScores.Some? then update.cognitiveScores else prev.cognitiveScores,
      if update.behavioralData.Some? then update.behavioralData else prev.behavioralData)
  }

  /** The merge is the only record that takes each property from the update when present and from `prev` otherwise. */
  lemma MergeIsDetermined(prev: AssessmentData, update: AssessmentData, r: AssessmentData)
    requires forall k :: Has(update, k) ==> SameAt(r, update, k)
    requires forall k :: !Has(update, k) ==> SameAt(r, prev, k)
    ensures r == UpdateData(prev, update)
  {
    var m := UpdateData(prev, update);
    forall k
      ensures SameAt(r, m, k)
    {
      if Has(update, k) {
        assert SameAt(r, update, k) && SameAt(m, update, k);
      } else {
        assert SameAt(r, prev, k) && SameAt(m, prev, k);
      }
    }
    SameEverywhere(r, m);
  }

  /** An empty update changes nothing, and merging into nothing gives the update. */
  lemma UpdateDataEmpty(d: AssessmentData)
    ensures UpdateData(d, EmptyData) == d
    ensures UpdateData(EmptyData, d) == d
  {
    MergeIsDetermined(d, EmptyData, d);
    MergeIsDetermined(EmptyData, d, d);
  }

  /** Applying the same update twice is applying it once; two updates in a row are one merged update. */
  lemma UpdateDataComposes(d: AssessmentData, u: AssessmentData, v: AssessmentData)
    ensures UpdateData(UpdateData(d, u), u) == UpdateData(d, u)
    ensures UpdateData(UpdateData(d, u), v) == UpdateData(d, UpdateData(u, v))
  {
    var du := UpdateData(d, u);
    MergeIsDetermined(du, u, du);
    var r := UpdateData(du, v);
    var uv := UpdateData(u, v);
    forall k | !Has(uv, k)
      ensures SameAt(r, d, k)
    {
      assert !Has(v, k) && !Has(u, k);
      assert SameAt(r, du, k) && SameAt(du, d, k);
    }
    forall k | Has(uv, k)
      ensures SameAt(r, uv, k)
    {
      if Has(v, k) {
        assert SameAt(r, v, k) && SameAt(uv, v, k);
      } else {
        assert SameAt(r, du, k) && SameAt(du, u, k) && SameAt(uv, u, k);
      }
    }
    MergeIsDetermined(d, uv, r);
  }

  /** The partial update holding only property `k`, taken from `d`. */
  function Only(d: AssessmentData, k: DataKey): (u: AssessmentData)
    ensures Has(u, k) == Has(d, k) && SameAt(u, d, k)
    ensures forall k' :: k' != k ==> !Has(u, k')
  {
    match k
    case AudioKey => EmptyData.(audioMetrics := d.audioMetrics)
    case VisualKey => EmptyData.(visualMetrics := d.visualMetrics)
    case TextKey => EmptyData.(textMetrics := d.textMetrics)
    case CognitiveKey => EmptyData.(cognitiveScores := d.cognitiveScores)
    case BehavioralDataKey => EmptyData.(behavioralData := d.behavioralData)
  }

  /** `updateData({ audioMetrics: m })` */
  function AudioUpdate(m: AudioMetrics): AssessmentData {
    EmptyData.(audioMetrics := Some(m))
  }

  /** `updateData({ visualMetrics: m })` */
  function VisualUpdate(m: VisualMetrics): AssessmentData {
    EmptyData.(visualMetrics := Some(m))
  }

  /** `updateData({ textMetrics: m })` */
  function TextUpdate(m: TextMetrics): AssessmentData {
    EmptyData.(textMetrics := Some(m))
  }

  /** Merging a one-property update writes that property and leaves the other four as they were. */
  lemma SingleKeyUpdate(d: AssessmentData, u: AssessmentData, k: DataKey)
    requires u == Only(u, k) && Has(u, k)
    ensures SameAt(UpdateData(d, u), u, k)
    ensures forall k' :: k' != k ==> SameAt(UpdateData(d, u), d, k')
  {
  }

  // ---------------------------------------------------------------------------
  // The behavioural sliders
  // ---------------------------------------------------------------------------

  /** `{ ...b, [key]: value }` on the lifestyle ratings. */
  function SetRating(b: BehavioralData, key: BehavioralKey, value: int): (r: BehavioralData)
    ensures BehavioralValue(r, key) == Some(value)
    ensures forall k :: k != key ==> BehavioralValue(r, k) == BehavioralValue(b, k)
  {
    match key
    case SleepRating => b.(sleepRating := Some(value))
    case ActivityLevel => b.(activityLevel := Some(value))
    case SocialEngagement => b.(socialEngagement := Some(value))
    case StressFrequency => b.(stressFrequency := Some(value))
  }

  /** Ratings agreeing on every key are the same ratings. */
  lemma SameRatings(a: BehavioralData, b: BehavioralData)
    requires forall k :: BehavioralValue(a, k) == BehavioralValue(b, k)
    ensures a == b
  {
    assert BehavioralValue(a, SleepRating) == BehavioralValue(b, SleepRating);
    assert BehavioralValue(a, ActivityLevel) == BehavioralValue(b, ActivityLevel);
    assert BehavioralValue(a, SocialEngagement) == BehavioralValue(b, SocialEngagement);
    assert BehavioralValue(a, StressFrequency) == BehavioralValue(b, StressFrequency);
  }

  /** Moving a slider again overrides its last value; moving two different sliders commutes. */
  lemma SetRatingLaws(b: BehavioralData, k1: BehavioralKey, v1: int, k2: BehavioralKey, v2: int)
    ensures SetRating(SetRating(b, k1, v1), k1, v2) == SetRating(b, k1, v2)
    ensures k1 != k2 ==> SetRating(SetRating(b, k1, v1), k2, v2) == SetRating(SetRating(b, k2, v2), k1, v1)
  {
    SameRatings(SetRating(SetRating(b, k1, v1), k1, v2), SetRating(b, k1, v2));
    if k1 != k2 {
      SameRatings(SetRating(SetRating(b, k1, v1), k2, v2), SetRating(SetRating(b, k2, v2), k1, v1));
    }
  }

  /**
   * A slider's `onChange`: `updateData({ behavioralData: { ...data.behavioralData, [key]: v } })`.
   * Spreading the still-missing ratings object gives no keys at all.
   */
  function SliderUpdate(d: AssessmentData, key: BehavioralKey, value: int): (r: AssessmentData)
    ensures r.behavioralData.Some?
    ensures BehavioralValue(r.behavioralData.value, key) == Some(value)
    ensures forall k :: k != key ==>
      BehavioralValue(r.behavioralData.value, k) == BehavioralValue(d.behavioralData.GetOr(NoBehavioralData), k)
    ensures forall k :: k != BehavioralDataKey ==> SameAt(r, d, k)
  {
    UpdateData(d, EmptyData.(behavioralData := Some(SetRating(d.behavioralData.GetOr(NoBehavioralData), key, value))))
  }

  // ---------------------------------------------------------------------------
  // The final analysis
  // ---------------------------------------------------------------------------

  const FallbackAnalysis := JObj(map[
    "speech" := JStr("Consistent cadence observed with minor filler word frequency."),
    "visual" := JStr("Normal blink rates and gaze stability during tracking tasks."),
    "cognitive" := JStr("High accuracy in sequence reproduction and reaction timing.")])

  const FallbackRecommendations := JArr([
    JStr("Maintain current Mediterranean diet."),
    JStr("Engage in daily social interactions."),
    JStr("Continue with complex mental puzzles."),
    JStr("Schedule follow-up in 6 months.")])

  /** The report `startAnalysis` shows when generating the report throws. */
  const FallbackReport: Object := map[
    "overallRisk" := JStr("Low"),
    "confidence" := JNum(0.89),
    "analysis" := FallbackAnalysis,
    "recommendations" := FallbackRecommendations]

  /** The fallback is a low-risk report with four recommendations and nothing else. */
  lemma FallbackReportShape()
    ensures FallbackReport.Keys == {"overallRisk", "confidence", "analysis", "recommendations"}
    ensures FallbackReport["overallRisk"] == JStr("Low")
    ensures FallbackReport["confidence"] == JNum(0.89)
    ensures FallbackReport["recommendations"].JArr? && |FallbackReport["recommendations"].items| == 4
    ensures "rawData" !in FallbackReport && "isDemo" !in FallbackReport && "citations" !in FallbackReport
  {
  }

  /** The report `startAnalysis` stores once the service's promise settles. */
  function ReportOf(outcome: ServiceResult): Object {
    match outcome
    case Returned(report) => report
    case Thrown => FallbackReport
  }

  /**
   * The demo report and the built-in fallback carry no raw metrics, so the report
   * page charts its defaults for them.
   */
  lemma BuiltInReportsChartDefaults(apiKey: Option<string>, reply: ProviderReply, parse: string -> Option<Json>)
    ensures UseSimulation(apiKey) ==>
      ReportDashboard.RawDataOf(ReportOf(GenerateFinalReport(apiKey, reply, parse))) == ReportDashboard.NoRawData
    ensures ReportDashboard.RawDataOf(ReportOf(Thrown)) == ReportDashboard.NoRawData
  {
    SimulatedReportShape();
    FallbackReportShape();
  }

  /** A provider report's `rawData` survives the merge: the page reads what the provider sent. */
  lemma ProviderRawDataReachesPage(fields: map<string, Json>)
    ensures ReportDashboard.RawDataOf(MergeResult(JObj(fields))) == ReportDashboard.RawDataOf(fields)
  {
    if "rawData" in fields {
      MergeKeepsObjectFields(fields, "rawData");
    }
  }

  /**
   * End to end: when the provider's reply parses to an object, the report the page
   * shows carries that object's raw metrics.
   */
  lemma ServiceRawDataReachesPage(apiKey: Option<string>, reply: ProviderReply, parse: string -> Option<Json>, fields: map<string, Json>)
    requires !UseSimulation(apiKey) && reply.Streamed?
    requires parse(ExtractJson(StreamText(reply.chunks))) == Some(JObj(fields))
    ensures ReportDashboard.RawDataOf(ReportOf(GenerateFinalReport(apiKey, reply, parse)))
      == ReportDashboard.RawDataOf(fields)
  {
    var r := GenerateFinalReport(apiKey, reply, parse);
    assert r.Returned? && r.report == MergeResult(JObj(fields));
    ProviderRawDataReachesPage(fields);
  }

  // ---------------------------------------------------------------------------
  // The page's state machine
  // ---------------------------------------------------------------------------

  /** The page's four pieces of state; `report` is `None` while it is `null`. */
  datatype AppState = AppState(stage: AssessmentStage, data: AssessmentData, report: Option<Object>, loading: bool)

  const InitialApp := AppState(Welcome, EmptyData, None, false)

  /**
   * What can happen on the page. `Next` and `Prev` are the panel buttons (and the
   * welcome screen's start button); the `...Done` events are the phases' `onComplete`
   * calls; `Slider` is a rating slider moved to `position` (its value is read back
   * with `parseInt`); `AnalysisSettled` is the report promise settling.
   */
  datatype AppEvent =
    | Next
    | Prev
    | AudioDone(audio: AudioMetrics)
    | VisualDone(visual: VisualMetrics)
    | TextDone(text: TextMetrics)
    | Slider(key: BehavioralKey, position: int)
    | AnalysisSettled(outcome: ServiceResult)

  /**
   * The stage changes the page's buttons and the analysis make, as a relation. No
   * change stays put, none touches the micro-tests stage, none leaves the report or
   * returns to the welcome screen.
   */
  predicate Allowed(from: AssessmentStage, to: AssessmentStage)
    ensures Allowed(from, to) ==> from != to && from != MicroTests && to != MicroTests
    ensures Allowed(from, to) ==> from != Report && to != Welcome
  {
    || (from == Welcome && to == Audio)
    || (from == Audio && to == Camera)
    || (from == Camera && (to == Text || to == Audio))
    || (from == Text && (to == Behavioral || to == Camera))
    || (from == Behavioral && (to == Analyzing || to == Text))
    || (from == Analyzing && to == Report)
  }

  /**
   * Handles one event. Buttons and sliders act only in the stage that renders them.
   * The text phase hands its metrics over only while shown. The audio and camera
   * phases' timers outlive the phases, so their metrics can arrive in any stage.
   */
  function Step(s: AppState, e: AppEvent): (t: AppState)
    ensures t.data != s.data ==> e.AudioDone? || e.VisualDone? || e.TextDone? || e.Slider?
    ensures t.report != s.report ==> e.AnalysisSettled? && s.loading
    ensures t.loading != s.loading ==> (t.loading <==> t.stage == Analyzing)
  {
    match e
    case Next =>
      (match s.stage
       case Welcome => s.(stage := Audio)
       case Audio => s.(stage := Camera)
       case Camera => s.(stage := Text)
       case Text => s.(stage := Behavioral)
       case Behavioral => s.(stage := Analyzing, loading := true)
       case _ => s)
    case Prev =>
      (match s.stage
       case Camera => s.(stage := Audio)
       case Text => s.(stage := Camera)
       case Behavioral => s.(stage := Text)
       case _ => s)
    case AudioDone(m) =>
      s.(data := UpdateData(s.data, AudioUpdate(m)))
    case VisualDone(m) =>
      s.(data := UpdateData(s.data, VisualUpdate(m)))
    case TextDone(m) =>
      if s.stage == Text then s.(data := UpdateData(s.data, TextUpdate(m))) else s
    case Slider(key, position) =>
      if s.stage == Behavioral then s.(data := SliderUpdate(s.data, key, position)) else s
    case AnalysisSettled(outcome) =>
      if s.loading then AppState(Report, s.data, Some(ReportOf(outcome)), false) else s
  }

  /** Handles the events in order. */
  function Run(s: AppState, es: seq<AppEvent>): AppState
    decreases |es|
  {
    if |es| == 0 then s else Run(Step(s, es[0]), es[1..])
  }

  /**
   * The reachable states: loading exactly while analyzing, a report exactly on the
   * report stage, and never the micro-tests stage.
   */
  ghost predicate Inv(s: AppState) {
    && (s.loading <==> s.stage == Analyzing)
    && (s.report.Some? <==> s.stage == Report)
    && s.stage != MicroTests
  }

  lemma InitialInv()
    ensures Inv(InitialApp)
  {
  }

  lemma StepKeepsInv(s: AppState, e: AppEvent)
    requires Inv(s)
    ensures Inv(Step(s, e))
  {
  }

  lemma {:induction false} RunKeepsInv(s: AppState, es: seq<AppEvent>)
    requires Inv(s)
    ensures Inv(Run(s, es))
    decreases |es|
  {
    if |es| > 0 {
      StepKeepsInv(s, es[0]);
      RunKeepsInv(Step(s, es[0]), es[1..]);
    }
  }

  /** From a reachable state, every stage change one event makes is an edge of the transition graph. */
  lemma StepFollowsGraph(s: AppState, e: AppEvent)
    requires Inv(s)
    ensures Step(s, e).stage == s.stage || Allowed(s.stage, Step(s, e).stage)
  {
  }

  /** From the welcome screen no sequence of events ever shows the micro-tests stage. */
  lemma NeverMicroTests(es: seq<AppEvent>)
    ensures Run(InitialApp, es).stage != MicroTests
  {
    InitialInv();
    RunKeepsInv(InitialApp, es);
  }

  /** Conversely, every edge of the graph is taken by some event from any reachable state on its source stage. */
  lemma GraphEdgesAreTaken(s: AppState, to: AssessmentStage)
    requires Inv(s) && Allowed(s.stage, to)
    ensures exists e :: Step(s, e).stage == to
  {
    if s.stage == Analyzing {
      assert Step(s, AnalysisSettled(Thrown)).stage == to;
    } else if (s.stage == Camera && to == Audio) || (s.stage == Text && to == Camera)
           || (s.stage == Behavioral && to == Text) {
      assert Step(s, Prev).stage == to;
    } else {
      assert Step(s, Next).stage == to;
    }
  }

  /** Each phase's metrics land under their own property and nowhere else. */
  lemma CompletionWritesOnlyItsKey(s: AppState, e: AppEvent)
    requires e.AudioDone? || e.VisualDone? || e.TextDone?
    ensures var k := if e.AudioDone? then AudioKey else if e.VisualDone? then VisualKey else TextKey;
      forall k' :: k' != k ==> SameAt(Step(s, e).data, s.data, k')
    ensures e.AudioDone? ==> Step(s, e).data.audioMetrics == Some(e.audio)
    ensures e.VisualDone? ==> Step(s, e).data.visualMetrics == Some(e.visual)
    ensures e.TextDone? && s.stage == Text ==> Step(s, e).data.textMetrics == Some(e.text)
    ensures Step(s, e).stage == s.stage && Step(s, e).report == s.report && Step(s, e).loading == s.loading
  {
    match e
    case AudioDone(m) => SingleKeyUpdate(s.data, AudioUpdate(m), AudioKey);
    case VisualDone(m) => SingleKeyUpdate(s.data, VisualUpdate(m), VisualKey);
    case TextDone(m) => SingleKeyUpdate(s.data, TextUpdate(m), TextKey);
  }

  /** Moving a slider sets its own rating and keeps the other ratings and all other data. */
  lemma SliderKeepsOtherRatings(s: AppState, key: BehavioralKey, position: int)
    requires s.stage == Behavioral
    ensures var t := Step(s, Slider(key, position));
      && t.data.behavioralData.Some?
      && BehavioralValue(t.data.behavioralData.value, key) == Some(position)
      && (forall k :: k != key && s.data.behavioralData.Some? ==>
            BehavioralValue(t.data.behavioralData.value, k) == BehavioralValue(s.data.behavioralData.value, k))
      && (forall k :: k != BehavioralDataKey ==> SameAt(t.data, s.data, k))
      && t.stage == Behavioral
  {
  }

  /**
   * `startAnalysis`: from the behavioural stage, whatever the report promise does,
   * the page ends on the report stage with a report and no longer loading. The
   * report is the returned one, or the fallback when the promise rejects.
   */
  lemma AnalysisAlwaysReports(s: AppState, outcome: ServiceResult)
    requires s.stage == Behavioral
    ensures Step(s, Next).stage == Analyzing && Step(s, Next).loading
    ensures var t := Step(Step(s, Next), AnalysisSettled(outcome));
      && t.stage == Report && t.report.Some? && !t.loading
      && t.report.value == ReportOf(outcome)
      && t.data == s.data
  {
  }

  /** Once on the report stage, the stage, the report and the loading flag never change again. */
  lemma {:induction false} ReportIsFinal(s: AppState, es: seq<AppEvent>)
    requires Inv(s) && s.stage == Report
    ensures Run(s, es).stage == Report && Run(s, es).report == s.report && !Run(s, es).loading
    decreases |es|
  {
    if |es| > 0 {
      StepKeepsInv(s, es[0]);
      ReportIsFinal(Step(s, es[0]), es[1..]);
    }
  }

  /**
   * With the report produced by `generateFinalReport`, the report page shows a demo
   * report exactly when the service ran in simulation mode: a real reply is marked
   * as not a demo, and the fallback carries no mark at all.
   */
  lemma ShownDemoIffSimulation(s: AppState, apiKey: Option<string>, reply: ProviderReply, parse: string -> Option<Json>)
    requires s.stage == Behavioral
    ensures var t := Step(Step(s, Next), AnalysisSettled(GenerateFinalReport(apiKey, reply, parse)));
      t.report.Some? && ("isDemo" in t.report.value && t.report.value["isDemo"] == JBool(true) <==> UseSimulation(apiKey))
  {
    var outcome := GenerateFinalReport(apiKey, reply, parse);
    AnalysisAlwaysReports(s, outcome);
    if outcome.Returned? {
      DemoIffSimulation(apiKey, reply, parse);
    } else {
      FallbackReportShape();
    }
  }
}
