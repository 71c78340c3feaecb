/**
 * The figures the report page derives from a report's raw metrics: the five chart
 * scores, the colour of the risk badge, and which session anomalies are shown in red.
 * JavaScript's `x || d` replaces a missing value and also a zero by the default `d`.
 */
module ReportDashboard {
  import opened Optional
  import opened Strings
  import opened Json

  /**
   * The raw metrics the page reads through `report.rawData?.…`. Each optional chain
   * is flattened to one optional number: missing anywhere along the chain is `None`.
   */
  datatype RawData = RawData(
    pauseCount: Option<real>,
    typingSpeed: Option<real>,
    accuracy: Option<real>,
    gazeStability: Option<real>)

  const NoRawData := RawData(None, None, None, None)

  /** `v?.key`: only an object has the named properties the page asks for. */
  function Member(v: Option<Json>, key: string): Option<Json> {
    if v.Some? && v.value.JObj? && key in v.value.fields then Some(v.value.fields[key]) else None
  }

  /** A leaf read as a number; a leaf of any other kind counts as absent. */
  function Number(v: Option<Json>): Option<real> {
    if v.Some? && v.value.JNum? then Some(v.value.n) else None
  }

  /** The four chains the page follows from the report object. */
  function RawDataOf(report: Object): (raw: RawData)
    ensures "rawData" !in report ==> raw == NoRawData
  {
    var rawData := if "rawData" in report then Some(report["rawData"]) else None;
    var audio := Member(rawData, "audioMetrics");
    var text := Member(rawData, "textMetrics");
    var visual := Member(rawData, "visualMetrics");
    RawData(
      Number(Member(audio, "pauseCount")),
      Number(Member(text, "typingSpeed")),
      Number(Member(text, "accuracy")),
      Number(Member(visual, "gazeStability")))
  }

  /** The optional number as a one-property object, or no properties when absent. */
  function Leaf(key: string, x: Option<real>): map<string, Json> {
    if x.Some? then map[key := JNum(x.value)] else map[]
  }

  /** The `rawData` value that carries exactly the given readings. */
  function RawDataJson(raw: RawData): Json {
    JObj(map[
      "audioMetrics" := JObj(Leaf("pauseCount", raw.pauseCount)),
      "textMetrics" := JObj(Leaf("typingSpeed", raw.typingSpeed) + Leaf("accuracy", raw.accuracy)),
      "visualMetrics" := JObj(Leaf("gazeStability", raw.gazeStability))])
  }

  /** Every combination of readings can be delivered by a report, and is read back as sent. */
  lemma RawDataOfRoundTrip(raw: RawData, report: Object)
    requires report == map["rawData" := RawDataJson(raw)]
    ensures RawDataOf(report) == raw
  {
    var text := Leaf("typingSpeed", raw.typingSpeed) + Leaf("accuracy", raw.accuracy);
    assert "typingSpeed" != "accuracy";
    assert raw.typingSpeed.Some? <==> "typingSpeed" in text;
    assert raw.accuracy.Some? <==> "accuracy" in text;
  }

  /** `x || d` for a number: an absent or zero value is replaced by `d`. */
  function OrReal(x: Option<real>, d: real): real {
    if x.Some? && x.value != 0.0 then x.value else d
  }

  /** `pauseCount || 0`: a non-zero count comes from the report; zero means none was given. */
  function AudioPauses(raw: RawData): (r: real)
    ensures r != 0.0 ==> raw.pauseCount == Some(r)
    ensures r == 0.0 <==> raw.pauseCount.None? || raw.pauseCount == Some(0.0)
  {
    OrReal(raw.pauseCount, 0.0)
  }

  /** `Math.max(15, 100 - audioPauses * 12)` */
  function AcousticScore(pauses: real): (r: real)
    ensures r >= 15.0
    ensures pauses >= 0.0 ==> r <= 100.0
    ensures r == 15.0 <==> pauses * 12.0 >= 85.0
  {
    if 100.0 - pauses * 12.0 > 15.0 then 100.0 - pauses * 12.0 else 15.0
  }

  lemma AcousticScoreAntitone(p1: real, p2: real)
    requires p1 <= p2
    ensures AcousticScore(p2) <= AcousticScore(p1)
  {
  }

  /** `Math.min(100, Math.max(20, typingWpm * 1.8))` */
  function MotorScore(wpm: real): (r: real)
    ensures 20.0 <= r <= 100.0
  {
    var scaled := wpm * 1.8;
    var floor := if scaled > 20.0 then scaled else 20.0;
    if floor < 100.0 then floor else 100.0
  }

  /** `typingSpeed || 0`: a non-zero speed comes from the report; zero means none was given. */
  function TypingSpeed(raw: RawData): (r: real)
    ensures r != 0.0 ==> raw.typingSpeed == Some(r)
    ensures r == 0.0 <==> raw.typingSpeed.None? || raw.typingSpeed == Some(0.0)
  {
    OrReal(raw.typingSpeed, 0.0)
  }

  /**
   * `accuracy || 100`; the cognitive score is this value. It is never 0, and any value
   * other than 100 comes from the report.
   */
  function CognitiveScore(raw: RawData): (r: real)
    ensures r != 0.0
    ensures r != 100.0 ==> raw.accuracy == Some(r)
    ensures raw.accuracy.Some? && raw.accuracy.value != 0.0 ==> r == raw.accuracy.value
  {
    OrReal(raw.accuracy, 100.0)
  }

  /**
   * `(gazeStability || 0.8) * 100`, on exact reals. It is never 0, and any value other
   * than 80 is the report's stability as a percentage.
   */
  function Stability(raw: RawData): (r: real)
    ensures r != 0.0
    ensures r != 80.0 ==> raw.gazeStability == Some(r / 100.0)
    ensures raw.gazeStability.Some? && raw.gazeStability.value != 0.0 ==>
      r == raw.gazeStability.value * 100.0
  {
    OrReal(raw.gazeStability, 0.8) * 100.0
  }

  /** The integer nearest to a non-negative `x`; on a tie, the larger one. */
  function RoundHalfUp(x: real): (n: nat)
    requires x >= 0.0
    ensures n as real - 0.5 <= x < n as real + 0.5
  {
    (x + 0.5).Floor
  }

  /** Only one integer lies within the rounding window around `x`. */
  lemma RoundHalfUpUnique(x: real, n: nat)
    requires x >= 0.0
    requires n as real - 0.5 <= x < n as real + 0.5
    ensures n == RoundHalfUp(x)
  {
  }

  /**
   * `x.toFixed(0)` for |x| below 10^21: the magnitude rounded to the nearest integer
   * (ties away from zero) in decimal, after a minus sign when `x` is negative.
   */
  function ToFixed0(x: real): (s: string)
    ensures 1 <= |s|
    ensures x >= 0.0 ==>
      AllDigits(s) && ParseNat(s) as real - 0.5 <= x < ParseNat(s) as real + 0.5
    ensures x < 0.0 ==>
      s[0] == '-' && AllDigits(s[1..])
      && ParseNat(s[1..]) as real - 0.5 <= -x < ParseNat(s[1..]) as real + 0.5
  {
    var magnitude := if x < 0.0 then -x else x;
    var n := RoundHalfUp(magnitude);
    ParseNatToString(n);
    var digits := NatToString(n);
    if x < 0.0 then
      assert ("-" + digits)[1..] == digits;
      "-" + digits
    else digits
  }

  /**
   * The gaze deviation shown next to the stability: `(100 - stability).toFixed(0)`.
   * For a stability between 0 and 100 it is the nearest whole percentage to the
   * remainder up to 100, rounding a half upward.
   */
  function GazeDeviation(raw: RawData): (shown: string)
    ensures 0.0 <= Stability(raw) <= 100.0 ==>
      AllDigits(shown)
      && ParseNat(shown) as real - 0.5 <= 100.0 - Stability(raw) < ParseNat(shown) as real + 0.5
  {
    ToFixed0(100.0 - Stability(raw))
  }

  /** A stability of 0.945 gives a deviation of 5.5, which the page shows as 6. */
  lemma HalfDeviationRoundsUp()
    ensures GazeDeviation(RawData(None, None, None, Some(0.945))) == "6"
  {
    var raw := RawData(None, None, None, Some(0.945));
    assert Stability(raw) == 94.5;
    assert RoundHalfUp(5.5) == 6;
  }

  /** A missing or zero reading falls back to its default score. */
  lemma DefaultsApply(raw: RawData)
    ensures raw.pauseCount.None? || raw.pauseCount == Some(0.0) ==> AcousticScore(AudioPauses(raw)) == 100.0
    ensures raw.accuracy.None? || raw.accuracy == Some(0.0) ==> CognitiveScore(raw) == 100.0
    ensures raw.gazeStability.None? || raw.gazeStability == Some(0.0) ==>
      Stability(raw) == 80.0 && GazeDeviation(raw) == "20"
    ensures raw.typingSpeed.None? || raw.typingSpeed == Some(0.0) ==> MotorScore(TypingSpeed(raw)) == 20.0
  {
    if raw.gazeStability.None? || raw.gazeStability == Some(0.0) {
      assert RoundHalfUp(20.0) == 20;
      assert NatToString(20) == NatToString(2) + [DigitChar(0)];
    }
  }

  const LowStyle := "text-green-400 border-green-500/40 bg-green-500/10 shadow-[0_0_20px_rgba(34,197,94,0.1)]"
  const ModerateStyle := "text-yellow-400 border-yellow-500/40 bg-yellow-500/10 shadow-[0_0_20px_rgba(234,179,8,0.1)]"
  const ElevatedStyle := "text-red-400 border-red-500/40 bg-red-500/10 shadow-[0_0_20px_rgba(239,68,68,0.2)]"
  const PlainStyle := "text-white"

  /** The values `getRiskColor` gives a style of their own. */
  predicate IsRiskLevel(risk: string) {
    risk == "Low" || risk == "Moderate" || risk == "Elevated"
  }

  /** `getRiskColor`: one style per risk level, plain white for any other value. */
  function RiskColor(risk: string): string {
    match risk
    case "Low" => LowStyle
    case "Moderate" => ModerateStyle
    case "Elevated" => ElevatedStyle
    case _ => PlainStyle
  }

  /** The three risk levels get three different styles, none of them the plain one. */
  lemma RiskColorsDistinct()
    ensures RiskColor("Low") != RiskColor("Moderate")
    ensures RiskColor("Low") != RiskColor("Elevated")
    ensures RiskColor("Moderate") != RiskColor("Elevated")
    ensures RiskColor("Low") != PlainStyle && RiskColor("Moderate") != PlainStyle
    ensures RiskColor("Elevated") != PlainStyle
  {
    assert |ElevatedStyle| < |LowStyle| < |ModerateStyle|;
    assert |PlainStyle| < |LowStyle| && |PlainStyle| < |ModerateStyle| && |PlainStyle| < |ElevatedStyle|;
  }

  /**
   * Two values get the same badge style exactly when they are the same risk level or
   * neither is a risk level: the badge tells the levels apart and nothing else.
   */
  lemma RiskColorSeparatesLevels(a: string, b: string)
    ensures RiskColor(a) == RiskColor(b) <==> a == b || (!IsRiskLevel(a) && !IsRiskLevel(b))
    ensures RiskColor(a) == PlainStyle <==> !IsRiskLevel(a)
  {
    RiskColorsDistinct();
  }

  /** The session anomalies the page can show in red. */
  datatype Anomaly = VerbalHesitations | TypingAccuracy | GazeDeviationHigh

  /** The anomalies shown in red: more than 3 pauses, accuracy under 90, stability under 70. */
  function RedAnomalies(raw: RawData): set<Anomaly> {
    (if AudioPauses(raw) > 3.0 then {VerbalHesitations} else {})
      + (if CognitiveScore(raw) < 90.0 then {TypingAccuracy} else {})
      + (if Stability(raw) < 70.0 then {GazeDeviationHigh} else {})
  }

  datatype ChartEntry = ChartEntry(subject: string, a: real, fullMark: int)

  /** The radar chart's five axes. */
  function ChartData(raw: RawData): (chart: seq<ChartEntry>)
    ensures |chart| == 5
    ensures forall k :: 0 <= k < 5 ==> chart[k].fullMark == 100
    ensures chart[4] == ChartEntry("Reflex Sync", 80.0, 100)
    ensures 15.0 <= chart[0].a && 20.0 <= chart[1].a <= 100.0
  {
    [ ChartEntry("Acoustic Clarity", AcousticScore(AudioPauses(raw)), 100),
      ChartEntry("Motor Speed", MotorScore(TypingSpeed(raw)), 100),
      ChartEntry("Linguistic Logic", CognitiveScore(raw), 100),
      ChartEntry("Gaze Stability", Stability(raw), 100),
      ChartEntry("Reflex Sync", 80.0, 100) ]
  }

  /**
   * The red highlights agree with the chart: hesitations are red exactly when the
   * acoustic axis is below 64, accuracy when the logic axis is below 90, gaze when the
   * stability axis is below 70.
   */
  lemma RedAnomaliesMatchChart(raw: RawData)
    ensures var chart := ChartData(raw); var red := RedAnomalies(raw);
      (VerbalHesitations in red <==> chart[0].a < 64.0)
      && (TypingAccuracy in red <==> chart[2].a < 90.0)
      && (GazeDeviationHigh in red <==> chart[3].a < 70.0)
  {
  }

  /** Worse readings never clear a red highlight. */
  lemma RedAnomaliesMonotone(better: RawData, worse: RawData)
    requires AudioPauses(better) <= AudioPauses(worse)
    requires CognitiveScore(worse) <= CognitiveScore(better)
    requires Stability(worse) <= Stability(better)
    ensures RedAnomalies(better) <= RedAnomalies(worse)
  {
  }

  /** A report without raw metrics charts 100, 20, 100, 80, 80 and shows nothing in red. */
  lemma NoRawDataView()
    ensures var chart := ChartData(NoRawData);
      chart[0].a == 100.0 && chart[1].a == 20.0 && chart[2].a == 100.0
      && chart[3].a == 80.0 && chart[4].a == 80.0
    ensures RedAnomalies(NoRawData) == {}
  {
  }
}
