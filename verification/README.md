# Neurolens assessment flow, modelled in Dafny

Neurolens is a browser application that walks a user through a short cognitive
screening. A welcome screen leads to three phases:

- an acoustic phase: a 3-minute recording with a countdown;
- a visual phase: a camera scan with a progress bar;
- a typing phase: the user copies a fixed sentence.

A page of lifestyle sliders follows. The collected metrics then go to a language-model
service that writes a diagnostic report, or a fixed demo report is used when no API key
is configured. The page falls back to a built-in report when the service fails. The
report page turns the report's raw metrics into five chart scores, a coloured risk
badge and red anomaly highlights.

The model covers the logic behind that flow:

- `TextPhase`: whitespace trimming and `split(/\s+/)`, the position-by-position word
  error count, the accuracy formula, and the key-press bookkeeping (backspace count,
  start time).
- `GeminiService`: the simulation gate, the simulated report, stream concatenation,
  cutting the JSON object out of the reply (`/\{[\s\S]*\}/`), and the
  `{ ...result, citations: [], isDemo: false }` merge. `JSON.parse` is a parameter.
  `Json` models parsed values and the object spread.
- `ReportDashboard`: the `rawData?.…` chains over the report's JSON, the
  `x || default` readings, the five chart scores, the `toFixed(0)` gaze deviation,
  `getRiskColor` and the anomaly thresholds.
- `AudioPhase` and `ClockDisplay`: the 1.8-second tick machine, the early stop, the
  fixed payload, and the `m:ss` formatter with its JavaScript `%` and `padStart`.
  `Strings` holds the decimal rendering of numbers.
- `CameraPhase`: the 100-millisecond scan whose counter steps by 2 and completes once.
- `App`: the stage machine and the shallow `updateData` merge, the slider merge, and
  `startAnalysis`, which always ends on the report stage.

Timers are modelled as explicit `Tick` events and clicks as events. Component state is
an immutable record, and a session is a fold of a step function over a sequence of
events.

A few modelling choices deserve a note:

- The typing phase hands over `accuracy`, while `types.ts` declares `complexity`. The
  record `Types.TextMetrics` carries `accuracy`.
- The code contains no pause-detection, gaze-drift or stability formula. Both the
  audio and the visual phase hand over constant metrics, and those constants are what
  is modelled.
- The report page reads `accuracy || 100`, so an accuracy of 0 (20 or more word errors)
  is shown as 100. `ReportDashboard.CognitiveScore` keeps that behaviour.
- Neither the audio interval nor the camera interval is cleared when its phase
  unmounts. The camera calls `onComplete` straight from its timer. The audio phase
  calls it from a state updater, and React may still run that updater eagerly after
  unmount. So the audio and the visual metrics can both arrive in any stage, and
  `App.Step` accepts them everywhere. The typing metrics come from a button shown only
  in the typing phase.

## Model

| member | source | states |
|---|---|---|
| TextPhase.Trim | components/TextPhase.tsx:29-30 | the result is a contiguous piece of the input with only whitespace removed before and after it, and it neither starts nor ends with whitespace |
| TextPhase.TrimIdempotent | components/TextPhase.tsx:29 | trimming a trimmed text changes nothing |
| TextPhase.TrimAllSpace | components/TextPhase.tsx:29 | text made only of whitespace trims to the empty string |
| TextPhase.Split | components/TextPhase.tsx:29-30 | splitting on whitespace runs yields at least one piece, and no piece contains whitespace |
| TextPhase.SplitSeparates | components/TextPhase.tsx:29-30 | the pieces and the whitespace runs between them alternate: pieces have no whitespace, inner pieces are non-empty, and every run is non-empty whitespace |
| TextPhase.SplitWeaves | components/TextPhase.tsx:29-30 | putting the pieces and the runs back together in turn gives the original text |
| TextPhase.SplitUnique | components/TextPhase.tsx:29-30 | any pieces and runs of that shape, woven together, split back into exactly those pieces and runs |
| TextPhase.SplitCharacterized | components/TextPhase.tsx:29-30 | the split of a text is a given list of pieces exactly when some whitespace runs weave with those pieces into the text |
| TextPhase.SplitJoin | components/TextPhase.tsx:29-30 | splitting non-empty whitespace-free words joined by single spaces gives the words back |
| TextPhase.SplitTrimmedIntoWords | components/TextPhase.tsx:29 | text without whitespace at either end splits into non-empty words only |
| TextPhase.SplitTrimJoin | components/TextPhase.tsx:29-30 | trimming and splitting words joined by single spaces gives the words back |
| TextPhase.TargetTextWords | components/TextPhase.tsx:12-30 | the target sentence trims and splits into its 23 proper words |
| TextPhase.CountErrors | components/TextPhase.tsx:31-34 | the error count never exceeds the number of typed words |
| TextPhase.CountErrorsCountsMismatches | components/TextPhase.tsx:31-34 | the error count is the number of positions whose typed word differs from the target word there or has no target word |
| TextPhase.NoErrorsIffPrefix | components/TextPhase.tsx:31-34 | there are no errors exactly when the typed words are the target's first words |
| TextPhase.ExtraWordsAreErrors | components/TextPhase.tsx:32-33 | every typed word beyond the target's last word adds one error |
| TextPhase.CountWordErrors | components/TextPhase.tsx:31-34 | the `forEach` loop computes the mismatch count |
| TextPhase.Accuracy | components/TextPhase.tsx:41 | accuracy lies in 0..100; it is 100 exactly with no errors and 0 exactly from 20 errors on |
| TextPhase.AccuracyAntitone | components/TextPhase.tsx:41 | more errors never give a higher accuracy |
| TextPhase.Submit | components/TextPhase.tsx:24-42 | the handed-over metrics carry the typed text, the backspace count, the word errors against the sentence's words and the accuracy of that count |
| TextPhase.TypedPrefixHasNoErrors | components/TextPhase.tsx:29-34 | typing the first words of the target exactly, one space apart, counts no errors |
| TextPhase.PrefixOfTargetScoresPerfect | components/TextPhase.tsx:29-41 | typing the first words of the target exactly gives 0 errors and accuracy 100 |
| TextPhase.WhitespaceOnlyScoresOneError | components/TextPhase.tsx:29-41 | a whitespace-only submission splits into one empty word, so 1 error and accuracy 95 |
| TextPhase.EmptyWordIsOneError | components/TextPhase.tsx:32-33 | a lone empty word mismatches a target whose first word is not empty |
| TextPhase.RunCountsBackspaces | components/TextPhase.tsx:19-21 | after any events the backspace counter has grown by the number of Backspace presses and nothing else |
| TextPhase.RunStampsFirstKey | components/TextPhase.tsx:15-18 | the start time is the clock time of the first key press and is never changed afterwards |
| TextPhase.Step | components/TextPhase.tsx:14-22 | a key press never changes the text and a change never touches the counters; the backspace count never drops; once started the phase stays started with its start time |
| TextPhase.RunShowsLastChange | components/TextPhase.tsx:52-63 | after any events the text is the value of the last change, and submitting is enabled exactly when that value has at least 10 characters |
| TextPhase.ErrorsFor | components/TextPhase.tsx:29-34 | the errors of a typed text never exceed its word count, are 0 exactly when its words start the target, and count every word past the target |
| GeminiService.SimulatedReportShape | services/geminiService.ts:14-32 | the simulated report is a low-risk demo report with confidence 0.92, three recommendations, one citation and no raw data |
| GeminiService.SimulationIffProviderIgnored | services/geminiService.ts:9-32 | the simulated report is returned whatever the provider replies exactly when the API key is missing, empty or "undefined" |
| GeminiService.GenerateFinalReport | services/geminiService.ts:9-97 | simulation mode returns the simulated report; otherwise a failed request throws, a stream throws exactly when its extracted text does not parse, and a returned report is the merge of the parsed value, with empty citations and isDemo false |
| GeminiService.DemoIffSimulation | services/geminiService.ts:9-93 | a returned report is marked as a demo exactly when the API key is missing, empty or "undefined" |
| GeminiService.StreamTextAppend | services/geminiService.ts:78-81 | the text of two streams in sequence is the two texts concatenated |
| GeminiService.ChunkText | services/geminiService.ts:80 | a chunk contributes its first choice's delta content when that content is present, and "" otherwise |
| GeminiService.OnlyFirstChoiceCounts | services/geminiService.ts:80 | choices after the first never change what a chunk contributes |
| GeminiService.StreamTextUnits | services/geminiService.ts:78-81 | an empty stream gives the empty text and a one-chunk stream gives that chunk's text |
| GeminiService.AccumulateStream | services/geminiService.ts:78-81 | the loop builds the concatenation of each chunk's first-choice content, with "" for a missing one |
| GeminiService.ExtractJson | services/geminiService.ts:84-85 | with a `{`…`}` match the extract opens with `{` and closes with `}`; without one the whole text is kept |
| GeminiService.NoMatchWithoutClosingAfter | services/geminiService.ts:84 | no `}` after the first `{` means the regular expression has no match |
| GeminiService.ExtractIsLeftmostLongest | services/geminiService.ts:84-85 | when a match exists, the extract is the leftmost, longest (greedy) match |
| GeminiService.ExtractIsInfix | services/geminiService.ts:84-85 | the extract is a contiguous piece of the text |
| GeminiService.ExtractIdempotent | services/geminiService.ts:84-85 | extracting from an extract changes nothing |
| GeminiService.MergeResult | services/geminiService.ts:89-93 | the result has the parsed value's own properties plus citations and isDemo, those two overridden with [] and false and all others kept |
| GeminiService.MergeKeepsObjectFields | services/geminiService.ts:89-93 | a parsed object keeps every property except citations and isDemo |
| GeminiService.MergeSpreadsArray | services/geminiService.ts:89-93 | a parsed array contributes element i under the decimal key of i |
| Json.Spread | services/geminiService.ts:90 | spreading an object copies its properties, an array or string gives its index keys, and null, booleans and numbers give nothing |
| Json.SpreadItemsAt | services/geminiService.ts:90 | the spread of an array holds element i under the decimal key of i |
| ReportDashboard.AcousticScore | components/ReportDashboard.tsx:14 | the acoustic score is at least 15, at most 100 for non-negative pauses, and exactly 15 once twelve times the pauses reach 85 |
| ReportDashboard.AcousticScoreAntitone | components/ReportDashboard.tsx:14 | more pauses never give a higher acoustic score |
| ReportDashboard.MotorScore | components/ReportDashboard.tsx:17 | the motor score is clamped to 20..100 |
| ReportDashboard.RawDataOf | components/ReportDashboard.tsx:13-22 | a report without a rawData property yields no readings at all |
| ReportDashboard.RawDataOfRoundTrip | components/ReportDashboard.tsx:8-22 | every combination of the four readings can be carried by a report's rawData and is read back unchanged |
| ReportDashboard.AudioPauses | components/ReportDashboard.tsx:13 | a non-zero pause reading is the report's own value; 0 exactly when the report gives none or 0 |
| ReportDashboard.TypingSpeed | components/ReportDashboard.tsx:16 | a non-zero speed is the report's own value; 0 exactly when the report gives none or 0 |
| ReportDashboard.CognitiveScore | components/ReportDashboard.tsx:19-20 | the cognitive score is a present non-zero accuracy itself, and 100 otherwise; it is never 0, and any value other than 100 is the report's accuracy |
| ReportDashboard.Stability | components/ReportDashboard.tsx:22 | the stability is a present non-zero gaze stability times 100, and 80 otherwise; it is never 0, and any value other than 80 is the report's gaze stability as a percentage |
| ReportDashboard.RoundHalfUp | components/ReportDashboard.tsx:78 | the rounded value lies within half a unit of the input, a tie going up |
| ReportDashboard.RoundHalfUpUnique | components/ReportDashboard.tsx:78 | only one integer lies within that window, so the rounding is determined |
| ReportDashboard.ToFixed0 | components/ReportDashboard.tsx:78 | `toFixed(0)` shows the nearest integer to the magnitude in decimal digits, after a minus sign exactly for a negative input |
| ReportDashboard.GazeDeviation | components/ReportDashboard.tsx:78 | for a stability in 0..100 the deviation shown is the decimal digits of the nearest whole number to 100 minus the stability |
| ReportDashboard.HalfDeviationRoundsUp | components/ReportDashboard.tsx:78 | in exact arithmetic a gaze stability of 0.945 shows a deviation of 6: a half rounds up |
| ReportDashboard.DefaultsApply | components/ReportDashboard.tsx:13-78 | a missing or zero reading gives the default score: 100 acoustic, 20 motor, 100 cognitive, 80 stability with a shown deviation of 20 |
| ReportDashboard.RiskColorsDistinct | components/ReportDashboard.tsx:32-39 | the three risk levels get three different styles, none of them plain |
| ReportDashboard.RiskColorSeparatesLevels | components/ReportDashboard.tsx:32-39 | two values get the same badge style exactly when they are the same risk level or neither is one; the plain style marks exactly the non-levels |
| ReportDashboard.ChartData | components/ReportDashboard.tsx:24-30 | the chart has five axes with full mark 100, the last fixed at 80 and the first two within their clamps |
| ReportDashboard.RedAnomaliesMatchChart | components/ReportDashboard.tsx:24-78 | a highlight is red exactly when its chart axis is low: acoustic below 64, linguistic below 90, gaze below 70 |
| ReportDashboard.RedAnomaliesMonotone | components/ReportDashboard.tsx:70-78 | worse readings never clear a red highlight |
| ReportDashboard.NoRawDataView | components/ReportDashboard.tsx:13-30 | a report without raw metrics charts 100, 20, 100, 80, 80 and shows nothing in red |
| AudioPhase.ClockParts | components/AudioPhase.tsx:61-62 | for a non-negative time the minutes and seconds shown are the whole seconds divided by 60 and their remainder |
| AudioPhase.FormatTime | components/AudioPhase.tsx:60-64 | the display of a non-negative time reads back as its whole number of seconds |
| AudioPhase.InitialDisplay | components/AudioPhase.tsx:19 | the untouched countdown shows 3:00 |
| AudioPhase.Countdown | components/AudioPhase.tsx:42 | the countdown never goes below 0 and drops by exactly 1.8 while at least 1.8 remains |
| AudioPhase.Step | components/AudioPhase.tsx:27-58 | metrics are handed over only while recording, which then stops and hands over the fixed payload; ticks do nothing while stopped |
| AudioPhase.StepKeepsInv | components/AudioPhase.tsx:35-42 | one event keeps the progress within 0..100 and the countdown within 0..180 |
| AudioPhase.RunKeepsInv | components/AudioPhase.tsx:35-42 | any events keep the progress within 0..100 and the countdown within 0..180 |
| AudioPhase.PressStarts | components/AudioPhase.tsx:27-30 | starting resets the progress to 0 and the countdown to 180 |
| AudioPhase.TicksFromStart | components/AudioPhase.tsx:34-43 | each of the first 100 ticks adds one percent and removes 1.8 seconds, handing nothing over |
| AudioPhase.TicksWhenStopped | components/AudioPhase.tsx:46-48 | once stopped, ticks change nothing |
| AudioPhase.RunsToCompletion | components/AudioPhase.tsx:34-57 | left alone, the recording stops on the 101st tick at 100 percent and 0 seconds and hands the payload over exactly once |
| AudioPhase.EarlyStopMatchesCompletion | components/AudioPhase.tsx:46-57 | finishing early hands over the same payload as completing: 12 pauses, 135 words per minute, 180 seconds |
| AudioPhase.HandOverIsFixed | components/AudioPhase.tsx:46-57 | whatever the events, every handover is the fixed payload: 12 pauses, the four filler words, 135 words per minute, diversity 0.82, 180 seconds, a transcript ending with the prompt |
| ClockDisplay.ParseClockOf | components/AudioPhase.tsx:63 | the display of q minutes and r < 60 seconds reads back as q * 60 + r |
| ClockDisplay.PaddedSeconds | components/AudioPhase.tsx:63 | seconds below 60 padded to two digits are two digits that read back as the seconds |
| Strings.PadStart | components/AudioPhase.tsx:63 | padding keeps the string as a suffix, fills the front with the fill character, and reaches the width when shorter |
| Strings.NatToString | components/AudioPhase.tsx:61-63 | a number renders as at least one decimal digit, as one digit exactly below 10, and with a leading 0 only for 0 itself |
| Strings.ParseNatToString | components/AudioPhase.tsx:63 | reading back a rendered number gives the number |
| CameraPhase.Step | components/CameraPhase.tsx:31-47 | metrics are handed over only by a live timer, which is then cleared; a live tick sets progress and counter to the counter plus 2; a press while scanning and a tick without timer do nothing |
| CameraPhase.PressStarts | components/CameraPhase.tsx:31-33 | starting from the untouched component begins a scan at 0 |
| CameraPhase.TicksFromStart | components/CameraPhase.tsx:34-38 | each of the first 49 ticks adds 2 to the progress and hands nothing over |
| CameraPhase.TicksWhenCleared | components/CameraPhase.tsx:37-38 | once the timer is cleared, ticks change nothing |
| CameraPhase.ScanCompletes | components/CameraPhase.tsx:34-46 | the scan completes on its 50th tick at 100 percent and hands the fixed visual metrics over exactly once |
| CameraPhase.StepKeepsInv | components/CameraPhase.tsx:31-47 | the progress shows an even counter within 0..100, and a live timer belongs to a running scan below 100 |
| CameraPhase.AtMostOneCompletion | components/CameraPhase.tsx:31-84 | from any reachable state the metrics are handed over at most once more, and only the fixed payload |
| CameraPhase.SessionCompletesAtMostOnce | components/CameraPhase.tsx:37-44 | a whole session hands the metrics over at most once, always blink rate 12, gaze stability 0.94, expression delta 0.15 and motor lag 45, and keeps the progress within 0..100 |
| App.UpdateData | App.tsx:17-19 | properties present in the update overwrite, absent ones keep their old value, and a property is present exactly when it was present before or in the update |
| App.MergeIsDetermined | App.tsx:17-19 | the merge is the only record that takes each property from the update when present and from the old data otherwise |
| App.UpdateDataEmpty | App.tsx:17-19 | an empty update changes nothing, and merging into empty data gives the update |
| App.UpdateDataComposes | App.tsx:17-19 | applying an update twice equals applying it once, and two updates in a row equal one merged update |
| App.SingleKeyUpdate | App.tsx:17-19 | a one-property update writes that property and leaves the other four unchanged |
| App.SetRating | App.tsx:162 | the moved slider's rating is set and the other three ratings are kept |
| App.SetRatingLaws | App.tsx:162 | moving a slider twice keeps the last value, and moving two different sliders commutes |
| App.SliderUpdate | App.tsx:162 | the ratings object is present with the new rating, other ratings come from the old object or are absent, and the other data properties are unchanged |
| App.Allowed | App.tsx:100-146 | no stage change stays put, none touches the micro-tests stage, none leaves the report stage or returns to the welcome screen |
| App.FallbackReportShape | App.tsx:31-45 | the fallback report has overallRisk Low, confidence 0.89, four recommendations, and no raw data, isDemo or citations |
| App.BuiltInReportsChartDefaults | App.tsx:31-45 | the simulated and the fallback reports carry no raw readings, so the page charts its defaults for them |
| App.ProviderRawDataReachesPage | services/geminiService.ts:89-93 | the page reads the same raw metrics from the merged result as from the provider's parsed object |
| App.ServiceRawDataReachesPage | services/geminiService.ts:78-93 | when the provider's reply parses to an object, the report the page shows carries that object's raw metrics |
| App.Step | App.tsx:17-162 | only completions and sliders change the data, only a settling analysis changes the report, and loading turns on or off only together with entering or leaving the analyzing stage |
| App.StepFollowsGraph | App.tsx:100-146 | from a reachable state every stage change is one of the allowed transitions |
| App.GraphEdgesAreTaken | App.tsx:100-146 | every allowed transition is taken by some event from any reachable state on its source stage |
| App.StepKeepsInv | App.tsx:21-50 | loading exactly while analyzing, a report exactly on the report stage, and never the micro-tests stage |
| App.NeverMicroTests | App.tsx:100-146 | no sequence of events from the welcome screen reaches the micro-tests stage |
| App.CompletionWritesOnlyItsKey | App.tsx:115-137 | each phase's completion writes its own property and leaves the others, the stage, the report and the loading flag unchanged |
| App.SliderKeepsOtherRatings | App.tsx:162 | a slider sets its rating and keeps the other ratings and all other data |
| App.AnalysisAlwaysReports | App.tsx:21-50 | starting the analysis sets analyzing and loading; whatever the outcome, the page then reaches the report stage with a report and loading off |
| App.ReportIsFinal | App.tsx:195-197 | once on the report stage, the stage, the report and the loading flag never change |
| App.ShownDemoIffSimulation | App.tsx:21-50 | with the service's real outcome, the report shown is marked as a demo exactly when the service ran in simulation mode |

## Left out

- Browser I/O: microphone and camera capture, track cleanup, `window.location.reload`, `print`, `console` logging and the `Date.now()` session label.
- Real timing: `setInterval` and `setTimeout` become `Tick` events, and the simulation mode's 4-second delay is not modelled.
- The random choice of the audio prompt: it is a parameter of `AudioPhase.Step`.
- The language-model call: the prompt text, the SDK configuration and the streaming transport. The provider's behaviour is the parameter `ProviderReply`.
- `JSON.parse`: a parameter `parse`, with `None` standing for a thrown exception.
- A chunk whose `choices` property is missing altogether makes the source throw a `TypeError`. `Chunk` always has a (possibly empty) choice list.
- services/nvidiaService.ts is not part of this model: the page never imports it.
- TextPhase.Submit: the words-per-minute figure (`Date.now()`, division, `Math.round`) is a parameter, not computed.
- The typed `onChange` text is modelled as whole-value replacement. String lengths count code points, not UTF-16 code units.
- TextPhase.TargetTextWords: the target sentence is written as its 23 words joined by single spaces. Its spelling is stated in a comment beside the constant, not proved against the source's literal.
- AudioPhase.Countdown: the countdown uses exact decimal arithmetic. The source's floating-point `prev - 1.8` accumulates rounding error, which is not modelled.
- ReportDashboard.RawDataOf: a leaf that is not a JSON number counts as absent. JavaScript would use a truthy string or object as is. The application's own reports carry no `rawData`. A provider's `rawData` reaches the page unchanged (`App.ProviderRawDataReachesPage`).
- ReportDashboard.Stability: the readings and `* 100` use exact reals. Floating-point rounding of the reading, of `* 100` and of `100 - stability` is not modelled, so near a tie the deviation a browser shows can differ by one.
- ReportDashboard.GazeDeviation: `toFixed(0)` is modelled for its decimal form only. The exponent form for magnitudes from 10^21 on is not modelled.
- The confidence figure `(report.confidence * 100).toFixed(1)` and the accuracy and pause counts printed as text are display only and are not modelled.
- ReportDashboard.MotorScore: floating-point rounding of `typingWpm * 1.8` is not modelled, and only the clamp bounds are stated.
- React semantics: batching, StrictMode double effects and stale closures are not modelled. The slider reads the data as of the current render, and one event is handled at a time.
- The slider's `parseInt(e.target.value)` is modelled as the slider position itself, since a range input's value is always the decimal rendering of an integer in 1..10.
- JSX layout, styling, the recharts drawing and the DiagnosticPanel wrapper are not modelled, beyond which buttons each stage renders.
