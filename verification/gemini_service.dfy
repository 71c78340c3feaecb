/**
 * Producing the final report: without an API key a fixed simulated report is
 * returned; otherwise the provider's streamed reply is concatenated, the JSON object
 * is cut out of it, parsed, and returned with `citations` and `isDemo` overridden.
 */
module GeminiService {
  import opened Optional
  import opened Strings
  import opened Json

  // ---------------------------------------------------------------------------
  // Simulation gate
  // ---------------------------------------------------------------------------

  /** `!API_KEY || API_KEY === 'undefined' || API_KEY === ''` for an optional key. */
  predicate UseSimulation(apiKey: Option<string>) {
    apiKey.None? || apiKey.value == "" || apiKey.value == "undefined"
  }

  /** `GenerateFinalReport` bypasses the provider entirely exactly when the key is unusable. */
  lemma SimulationIffProviderIgnored(apiKey: Option<string>)
    ensures UseSimulation(apiKey) <==>
      forall reply, parse :: GenerateFinalReport(apiKey, reply, parse) == Returned(SimulatedReport)
  {
    if !UseSimulation(apiKey) {
      var parse: string -> Option<Json> := _ => None;
      assert GenerateFinalReport(apiKey, RequestFailed, parse).Thrown?;
    }
  }

  const SimulatedAnalysis := JObj(map[
    "speech" := JStr("SIMULATED: Vocal patterns show standard frequency distribution. No micro-tremors detected in the 50Hz range."),
    "visual" := JStr("SIMULATED: Gaze tracking stable with standard saccadic latency of 210ms."),
    "cognitive" := JStr("SIMULATED: Linguistic variability suggests high executive function and working memory stability.")])

  const SimulatedRecommendations := JArr([
    JStr("Continue routine cognitive monitoring."),
    JStr("Maintain current physical activity levels."),
    JStr("Ensure consistent 7-9 hour sleep cycles.")])

  const SimulatedCitation := JObj(map[
    "web" := JObj(map[
      "title" := JStr("Standard Cognitive Baselines"),
      "uri" := JStr("https://example.com/demo")])])

  /** The report returned in simulation mode. */
  const SimulatedReport: Object := map[
    "overallRisk" := JStr("Low"),
    "confidence" := JNum(0.92),
    "analysis" := SimulatedAnalysis,
    "recommendations" := SimulatedRecommendations,
    "medicalGrounding" := JStr("DEMO MODE: In a production environment, this analysis is grounded in real-time medical literature. Currently displaying baseline metrics."),
    "isDemo" := JBool(true),
    "citations" := JArr([SimulatedCitation])]

  /** The simulated report is a low-risk demo report with three recommendations and one citation. */
  lemma SimulatedReportShape()
    ensures SimulatedReport["isDemo"] == JBool(true)
    ensures SimulatedReport["overallRisk"] == JStr("Low")
    ensures SimulatedReport["confidence"] == JNum(0.92)
    ensures SimulatedReport["recommendations"].JArr? && |SimulatedReport["recommendations"].items| == 3
    ensures SimulatedReport["citations"].JArr? && |SimulatedReport["citations"].items| == 1
    ensures "rawData" !in SimulatedReport
  {
  }

  // ---------------------------------------------------------------------------
  // Stream accumulation
  // ---------------------------------------------------------------------------

  datatype Delta = Delta(content: Option<string>)
  datatype Choice = Choice(delta: Option<Delta>)
  /** One streamed completion chunk; only `choices[0].delta.content` is read. */
  datatype Chunk = Chunk(choices: seq<Choice>)

  /**
   * `chunk.choices[0]?.delta?.content || ""`: a chunk contributes text only through the
   * content of its first choice's delta.
   */
  function ChunkText(c: Chunk): (t: string)
    ensures t != "" ==> |c.choices| > 0 && c.choices[0].delta == Some(Delta(Some(t)))
    ensures |c.choices| > 0 && c.choices[0].delta.Some? && c.choices[0].delta.value.content.Some? ==>
      t == c.choices[0].delta.value.content.value
  {
    if |c.choices| == 0 then ""
    else match c.choices[0].delta
      case None => ""
      case Some(d) => d.content.GetOr("")
  }

  /** The texts of the chunks, in order, one after the other. */
  function StreamText(chunks: seq<Chunk>): string
    decreases |chunks|
  {
    if |chunks| == 0 then "" else StreamText(chunks[..|chunks| - 1]) + ChunkText(chunks[|chunks| - 1])
  }

  /** Choices after the first never contribute to a chunk's text. */
  lemma OnlyFirstChoiceCounts(first: Choice, others: seq<Choice>)
    ensures ChunkText(Chunk([first] + others)) == ChunkText(Chunk([first]))
  {
  }

  /** An empty stream reads as the empty text, and a one-chunk stream as that chunk's text. */
  lemma StreamTextUnits(c: Chunk)
    ensures StreamText([]) == ""
    ensures StreamText([c]) == ChunkText(c)
  {
    assert [c][..0] == [];
  }

  /** Reading a stream in two parts gives the two texts one after the other. */
  lemma {:induction false} StreamTextAppend(a: seq<Chunk>, b: seq<Chunk>)
    ensures StreamText(a + b) == StreamText(a) + StreamText(b)
    decreases |b|
  {
    if |b| == 0 {
      assert a + b == a;
    } else {
      var b' := b[..|b| - 1];
      assert (a + b)[..|a + b| - 1] == a + b';
      assert (a + b)[|a + b| - 1] == b[|b| - 1];
      StreamTextAppend(a, b');
    }
  }

  /** The `for await` loop that appends each chunk's text to `fullText`. */
  method AccumulateStream(chunks: seq<Chunk>) returns (fullText: string)
    ensures fullText == StreamText(chunks)
  {
    fullText := "";
    var i := 0;
    while i < |chunks|
      invariant 0 <= i <= |chunks|
      invariant fullText == StreamText(chunks[..i])
    {
      assert chunks[..i + 1][..i] == chunks[..i];
      fullText := fullText + ChunkText(chunks[i]);
      i := i + 1;
    }
    assert chunks[..i] == chunks;
  }

  // ---------------------------------------------------------------------------
  // JSON extraction: fullText.match(/\{[\s\S]*\}/)
  // ---------------------------------------------------------------------------

  /** `s[i..j]` is matched by `\{[\s\S]*\}`: it opens with `{` and closes with `}`. */
  predicate MatchesAt(s: string, i: nat, j: nat) {
    i + 2 <= j <= |s| && s[i] == '{' && s[j - 1] == '}'
  }

  ghost predicate HasMatch(s: string) {
    exists i: nat, j: nat :: MatchesAt(s, i, j)
  }

  /** The match the regular expression reports: leftmost start, then longest (greedy) end. */
  ghost predicate IsLeftmostLongest(s: string, i: nat, j: nat) {
    && MatchesAt(s, i, j)
    && (forall i': nat, j': nat :: i' < i ==> !MatchesAt(s, i', j'))
    && (forall j': nat :: j < j' ==> !MatchesAt(s, i, j'))
  }

  /** `jsonMatch ? jsonMatch[0] : fullText`: from the first `{` to the last `}`, else everything. */
  function ExtractJson(s: string): (r: string)
    ensures HasMatch(s) ==> 2 <= |r| && r[0] == '{' && r[|r| - 1] == '}'
    ensures !HasMatch(s) ==> r == s
  {
    match (FirstIndexOf(s, '{'), LastIndexOf(s, '}'))
    case (Some(i), Some(j)) =>
      if i < j then
        assert MatchesAt(s, i, j + 1);
        s[i..j + 1]
      else
        NoMatchWithoutClosingAfter(s, i);
        s
    case (None, _) => s
    case (_, None) => s
  }

  lemma NoMatchWithoutClosingAfter(s: string, first: nat)
    requires first < |s| && s[first] == '{'
    requires forall k :: 0 <= k < first ==> s[k] != '{'
    requires forall k :: first < k < |s| ==> s[k] != '}'
    ensures !HasMatch(s)
  {
    forall i: nat, j: nat
      ensures !MatchesAt(s, i, j)
    {
      if i + 2 <= j <= |s| && s[i] == '{' {
        assert first <= i;
        assert s[j - 1] != '}';
      }
    }
  }

  /** When a match exists, the extract is exactly the leftmost-longest match. */
  lemma ExtractIsLeftmostLongest(s: string, i: nat, j: nat)
    requires IsLeftmostLongest(s, i, j)
    ensures ExtractJson(s) == s[i..j]
  {
    var first := FirstIndexOf(s, '{');
    var last := LastIndexOf(s, '}');
    assert first.Some? && first.value <= i;
    assert last.Some? && j - 1 <= last.value;
    assert MatchesAt(s, first.value, j);
    assert first.value == i;
    assert MatchesAt(s, i, last.value + 1);
  }

  /** The extract is a contiguous piece of the text. */
  lemma ExtractIsInfix(s: string)
    ensures exists i: nat, j: nat :: i <= j <= |s| && ExtractJson(s) == s[i..j]
  {
    var first := FirstIndexOf(s, '{');
    var last := LastIndexOf(s, '}');
    if first.Some? && last.Some? && first.value < last.value {
      assert ExtractJson(s) == s[first.value..last.value + 1];
    } else {
      assert ExtractJson(s) == s[0..|s|];
    }
  }

  /** Extracting again from an extract changes nothing. */
  lemma ExtractIdempotent(s: string)
    ensures ExtractJson(ExtractJson(s)) == ExtractJson(s)
  {
    var r := ExtractJson(s);
    if HasMatch(s) {
      var first := FirstIndexOf(r, '{');
      var last := LastIndexOf(r, '}');
      assert first == Some(0);
      assert last == Some(|r| - 1);
      assert r[0..|r|] == r;
    }
  }

  // ---------------------------------------------------------------------------
  // Result
  // ---------------------------------------------------------------------------

  /** `{ ...result, citations: [], isDemo: false }` */
  function MergeResult(result: Json): (r: Object)
    ensures r.Keys == Spread(result).Keys + {"citations", "isDemo"}
    ensures r["citations"] == JArr([]) && r["isDemo"] == JBool(false)
    ensures forall k :: k in Spread(result) && k != "citations" && k != "isDemo" ==> r[k] == Spread(result)[k]
  {
    Spread(result)["citations" := JArr([])]["isDemo" := JBool(false)]
  }

  /** What the provider did: the request or the stream failed, or the stream delivered these chunks. */
  datatype ProviderReply = RequestFailed | Streamed(chunks: seq<Chunk>)

  /** The promise's settlement: a report, or a thrown error. */
  datatype ServiceResult = Returned(report: Object) | Thrown

  /**
   * `generateFinalReport`. `parse` stands for `JSON.parse`, giving `None` where it throws.
   * The assessment data only feeds the prompt, which is not modelled.
   */
  function GenerateFinalReport(apiKey: Option<string>, reply: ProviderReply, parse: string -> Option<Json>): (r: ServiceResult)
    ensures UseSimulation(apiKey) ==> r == Returned(SimulatedReport)
    ensures !UseSimulation(apiKey) && reply.RequestFailed? ==> r.Thrown?
    ensures !UseSimulation(apiKey) && reply.Streamed? ==>
      (r.Thrown? <==> parse(ExtractJson(StreamText(reply.chunks))).None?)
    ensures !UseSimulation(apiKey) && r.Returned? ==>
      && "citations" in r.report && r.report["citations"] == JArr([])
      && "isDemo" in r.report && r.report["isDemo"] == JBool(false)
    ensures !UseSimulation(apiKey) && reply.Streamed? && r.Returned? ==>
      && parse(ExtractJson(StreamText(reply.chunks))).Some?
      && r.report == MergeResult(parse(ExtractJson(StreamText(reply.chunks))).value)
  {
    if UseSimulation(apiKey) then Returned(SimulatedReport)
    else match reply
      case RequestFailed => Thrown
      case Streamed(chunks) =>
        match parse(ExtractJson(StreamText(chunks)))
        case None => Thrown
        case Some(result) => Returned(MergeResult(result))
  }

  /** A returned report is marked as a demo exactly when simulation mode was chosen. */
  lemma DemoIffSimulation(apiKey: Option<string>, reply: ProviderReply, parse: string -> Option<Json>)
    requires GenerateFinalReport(apiKey, reply, parse).Returned?
    ensures var report := GenerateFinalReport(apiKey, reply, parse).report;
      "isDemo" in report && (report["isDemo"] == JBool(true) <==> UseSimulation(apiKey))
  {
  }

  /** A parsed object keeps every property other than `citations` and `isDemo`. */
  lemma MergeKeepsObjectFields(fields: map<string, Json>, k: string)
    requires k in fields && k != "citations" && k != "isDemo"
    ensures MergeResult(JObj(fields))[k] == fields[k]
  {
  }

  /** A parsed array contributes its elements under their decimal indices. */
  lemma MergeSpreadsArray(items: seq<Json>, i: nat)
    requires i < |items|
    ensures NatToString(i) in MergeResult(JArr(items))
    ensures MergeResult(JArr(items))[NatToString(i)] == items[i]
  {
    SpreadItemsAt(items, i);
    DigitsAreNotWord(NatToString(i), "citations");
    DigitsAreNotWord(NatToString(i), "isDemo");
  }

  /** A decimal index never collides with a property name that starts with a letter. */
  lemma DigitsAreNotWord(digits: string, word: string)
    requires |digits| > 0 && AllDigits(digits)
    requires |word| > 0 && !IsDigit(word[0])
    ensures digits != word
  {
    assert IsDigit(digits[0]);
  }
}
