/**
 * The application's shared vocabulary: the assessment stages and the record of
 * metrics collected along the way. An absent property is `None`.
 */
module Types {
  import opened Optional

  datatype AssessmentStage =
    | Welcome
    | Audio
    | Camera
    | Text
    | MicroTests
    | Behavioral
    | Analyzing
    | Report

  /** The object the acoustic phase hands over when it finishes. */
  datatype AudioMetrics = AudioMetrics(
    transcript: string,
    pauseCount: int,
    fillerWords: seq<string>,
    speechRate: int,
    lexicalDiversity: real,
    analysisDuration: int)

  /** The object the visual phase hands over when it finishes. */
  datatype VisualMetrics = VisualMetrics(
    blinkRate: int,
    gazeStability: real,
    expressionDelta: real,
    motorLag: int)

  /** The object the typing phase hands over on submit (it carries `accuracy`, not `complexity`). */
  datatype TextMetrics = TextMetrics(
    content: string,
    backspaces: nat,
    typingSpeed: int,
    errors: nat,
    accuracy: int)

  datatype CognitiveScores = CognitiveScores(
    memoryScore: int,
    attentionScore: int,
    reactionTimeMs: int)

  /**
   * The self-reported lifestyle ratings. The sliders fill this object one key at a
   * time, so each key may still be absent.
   */
  datatype BehavioralData = BehavioralData(
    sleepRating: Option<int>,
    activityLevel: Option<int>,
    socialEngagement: Option<int>,
    stressFrequency: Option<int>)

  datatype BehavioralKey = SleepRating | ActivityLevel | SocialEngagement | StressFrequency

  const NoBehavioralData := BehavioralData(None, None, None, None)

  function BehavioralValue(b: BehavioralData, key: BehavioralKey): Option<int> {
    match key
    case SleepRating => b.sleepRating
    case ActivityLevel => b.activityLevel
    case SocialEngagement => b.socialEngagement
    case StressFrequency => b.stressFrequency
  }

  /** Everything collected so far; also used for the partial updates merged into it. */
  datatype AssessmentData = AssessmentData(
    audioMetrics: Option<AudioMetrics>,
    visualMetrics: Option<VisualMetrics>,
    textMetrics: Option<TextMetrics>,
    cognitiveScores: Option<CognitiveScores>,
    behavioralData: Option<BehavioralData>)

  const EmptyData := AssessmentData(None, None, None, None, None)
}
