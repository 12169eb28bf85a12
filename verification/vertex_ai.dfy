/** Post-processing of Vertex AI results: candidates the service blocked
    are replaced by a sentinel generation (shape preserved), and the Model
    Garden wrapper strips the echoed prompt from each prediction, keeping
    the text after the last `Prompt:\n<prompt>\nOutput:\n` marker.

    The base class's own prediction parsing and the blocked-response
    sentinel text are parameters. A `generation_info` entry is represented
    by the truth value Python would give it. */
module VertexAI {
  import opened Wrappers

  datatype Generation = Generation(text: string, generationInfo: Option<map<string, bool>>)

  datatype LLMResult<+O, +R> = LLMResult(generations: seq<seq<Generation>>, llmOutput: O, run: R)

  /** `was_response_blocked`: a candidate without generation info, or whose
      info has no `is_blocked` entry, was not blocked; otherwise the entry
      decides. */
  function WasBlocked(g: Generation): (blocked: bool)
    ensures g.generationInfo.None? ==> !blocked
    ensures g.generationInfo.Some? && "is_blocked" !in g.generationInfo.value ==> !blocked
    ensures g.generationInfo.Some? && "is_blocked" in g.generationInfo.value ==>
              (blocked <==> g.generationInfo.value["is_blocked"])
  {
    g.generationInfo.Some? && "is_blocked" in g.generationInfo.value && g.generationInfo.value["is_blocked"]
  }

  /** The generation that stands in for a blocked candidate. */
  function BlockedGeneration(sentinel: string): (g: Generation)
    ensures !WasBlocked(g)
  {
    Generation(sentinel, None)
  }

  function MarkCandidate(g: Generation, sentinel: string): Generation
  {
    if WasBlocked(g) then BlockedGeneration(sentinel) else g
  }

  function MarkCandidates(candidates: seq<Generation>, sentinel: string): (r: seq<Generation>)
    ensures |r| == |candidates|
    ensures forall j :: 0 <= j < |r| ==> r[j] == MarkCandidate(candidates[j], sentinel)
  {
    if |candidates| == 0 then []
    else [MarkCandidate(candidates[0], sentinel)] + MarkCandidates(candidates[1..], sentinel)
  }

  function MarkAll(generations: seq<seq<Generation>>, sentinel: string): (r: seq<seq<Generation>>)
    ensures |r| == |generations|
    ensures forall i :: 0 <= i < |r| ==> r[i] == MarkCandidates(generations[i], sentinel)
  {
    if |generations| == 0 then []
    else [MarkCandidates(generations[0], sentinel)] + MarkAll(generations[1..], sentinel)
  }

  /** `CustomVertexAI._agenerate` after the base call: same number of
      candidate lists, each of the same length; a candidate is replaced by
      the sentinel exactly when it was blocked; nothing else changes. */
  function MarkBlocked<O, R>(result: LLMResult<O, R>, sentinel: string): (r: LLMResult<O, R>)
    ensures |r.generations| == |result.generations|
    ensures forall i :: 0 <= i < |r.generations| ==> |r.generations[i]| == |result.generations[i]|
    ensures forall i, j :: 0 <= i < |r.generations| && 0 <= j < |r.generations[i]| ==>
              var c := result.generations[i][j];
              (WasBlocked(c) ==> r.generations[i][j] == Generation(sentinel, None))
              && (!WasBlocked(c) ==> r.generations[i][j] == c)
    ensures forall i, j :: 0 <= i < |r.generations| && 0 <= j < |r.generations[i]| ==> !WasBlocked(r.generations[i][j])
    ensures r.llmOutput == result.llmOutput && r.run == result.run
  {
    LLMResult(MarkAll(result.generations, sentinel), result.llmOutput, result.run)
  }

  /** Marking twice is marking once. */
  lemma MarkBlockedIdempotent<O, R>(result: LLMResult<O, R>, sentinel: string)
    ensures MarkBlocked(MarkBlocked(result, sentinel), sentinel) == MarkBlocked(result, sentinel)
  {
    var once := MarkBlocked(result, sentinel);
    var twice := MarkBlocked(once, sentinel);
    forall i | 0 <= i < |once.generations|
      ensures twice.generations[i] == once.generations[i]
    {
      assert |twice.generations[i]| == |once.generations[i]|;
    }
  }

  /** `Prompt:\n{prompt}\nOutput:\n`, the echo the Model Garden endpoint
      puts before its output. */
  function Marker(prompt: string): (m: string)
    ensures |m| > 0
  {
    "Prompt:\n" + prompt + "\nOutput:\n"
  }

  predicate OccursAt(s: string, m: string, k: int) {
    0 <= k && k + |m| <= |s| && s[k..k + |m|] == m
  }

  /** The last index at or below `k` where `m` occurs in `s`. */
  function LastOccurrenceFrom(s: string, m: string, k: int): (r: Option<nat>)
    ensures r.Some? ==> r.value <= k && OccursAt(s, m, r.value)
    ensures r.Some? ==> forall k' :: r.value < k' <= k ==> !OccursAt(s, m, k')
    ensures r.None? ==> forall k' :: k' <= k ==> !OccursAt(s, m, k')
    decreases k
  {
    if k < 0 then None
    else if OccursAt(s, m, k) then Some(k)
    else LastOccurrenceFrom(s, m, k - 1)
  }

  /** The last index where `m` occurs in `s`. */
  function LastOccurrence(s: string, m: string): (r: Option<nat>)
    ensures r.Some? ==> OccursAt(s, m, r.value) && forall k :: r.value < k ==> !OccursAt(s, m, k)
    ensures r.None? ==> forall k :: !OccursAt(s, m, k)
  {
    LastOccurrenceFrom(s, m, |s| - |m|)
  }

  datatype VertexError = UnexpectedOutputFormat

  /** `VertexAIModelGardenWrapper._parse_prediction` after the base parse:
      `text.rsplit(marker, maxsplit=1)[1]`, the text after the last marker;
      without a marker the index fails and a `ValueError` is raised. */
  function ParsePrediction(text: string, prompt: string): (r: Result<string, VertexError>)
    ensures r.Failure? <==> forall k :: !OccursAt(text, Marker(prompt), k)
    ensures r.Success? ==>
              exists k :: && OccursAt(text, Marker(prompt), k)
                          && (forall k' :: k < k' ==> !OccursAt(text, Marker(prompt), k'))
                          && r.value == text[k + |Marker(prompt)|..]
  {
    var m := Marker(prompt);
    match LastOccurrence(text, m)
    case None => Failure(UnexpectedOutputFormat)
    case Some(k) => Success(text[k + |m|..])
  }

  /** An occurrence after the start of the marker is an occurrence in the
      text that follows the marker's first character. */
  lemma LaterOccurrence(echo: string, m: string, output: string, k: int)
    requires |m| > 0 && |echo| < k && OccursAt(echo + m + output, m, k)
    ensures OccursAt((m + output)[1..], m, k - |echo| - 1)
  {
    var s, t := echo + m + output, (m + output)[1..];
    var d := k - |echo| - 1;
    assert forall i | d <= i < |t| :: t[i] == s[i + |echo| + 1];
    assert t[d..d + |m|] == s[k..k + |m|];
  }

  /** With no later marker (none starts inside the marker or the output),
      the output after the echoed prompt is recovered exactly. */
  lemma PredictionAfterEcho(echo: string, prompt: string, output: string)
    requires forall k :: !OccursAt((Marker(prompt) + output)[1..], Marker(prompt), k)
    ensures ParsePrediction(echo + Marker(prompt) + output, prompt) == Success(output)
  {
    var m := Marker(prompt);
    var s := echo + m + output;
    assert forall i :: 0 <= i < |m| ==> s[|echo| + i] == m[i];
    assert s[|echo|..|echo| + |m|] == m;
    assert OccursAt(s, m, |echo|);
    forall k | |echo| < k
      ensures !OccursAt(s, m, k)
    {
      if OccursAt(s, m, k) {
        LaterOccurrence(echo, m, output, k);
      }
    }
    assert s[|echo| + |m|..] == output;
  }

  /** A prediction the base class returns: a plain string, or a list of
      candidates. */
  datatype Prediction<+V> = Text(value: V) | Candidates(values: seq<V>)

  function PlainGeneration(text: string): Generation
  {
    Generation(text, None)
  }

  /** The candidates of one prediction, each stripped of the echo. The first
      candidate whose echo is missing raises. */
  function ParseCandidates<V>(baseParse: V -> string, values: seq<V>, prompt: string): (r: Result<seq<Generation>, VertexError>)
    ensures r.Success? <==> forall j :: 0 <= j < |values| ==> ParsePrediction(baseParse(values[j]), prompt).Success?
    ensures r.Success? ==> |r.value| == |values|
    ensures r.Success? ==>
              forall j :: 0 <= j < |values| ==>
                r.value[j] == PlainGeneration(ParsePrediction(baseParse(values[j]), prompt).value)
  {
    if |values| == 0 then Success([])
    else
      var first :- ParsePrediction(baseParse(values[0]), prompt);
      var rest :- ParseCandidates(baseParse, values[1..], prompt);
      Success([PlainGeneration(first)] + rest)
  }

  function ParseOne<V>(baseParse: V -> string, prediction: Prediction<V>, prompt: string): (r: Result<seq<Generation>, VertexError>)
    ensures prediction.Text? ==>
              (r.Success? <==> ParsePrediction(baseParse(prediction.value), prompt).Success?)
    ensures prediction.Text? && r.Success? ==>
              r.value == [PlainGeneration(ParsePrediction(baseParse(prediction.value), prompt).value)]
    ensures prediction.Candidates? ==>
              (r.Success? <==>
               forall j :: 0 <= j < |prediction.values| ==> ParsePrediction(baseParse(prediction.values[j]), prompt).Success?)
    ensures prediction.Candidates? && r.Success? ==> |r.value| == |prediction.values|
    ensures prediction.Candidates? && r.Success? ==>
              forall j :: 0 <= j < |prediction.values| ==>
                r.value[j] == PlainGeneration(ParsePrediction(baseParse(prediction.values[j]), prompt).value)
    ensures prediction.Candidates? && r.Failure? ==>
              exists j :: 0 <= j < |prediction.values| && ParsePrediction(baseParse(prediction.values[j]), prompt).Failure?
  {
    match prediction
    case Text(v) =>
      var t :- ParsePrediction(baseParse(v), prompt);
      Success([PlainGeneration(t)])
    case Candidates(vs) => ParseCandidates(baseParse, vs, prompt)
  }

  /** `VertexAIModelGardenWrapper._parse_response`: predictions and prompts
      are zipped (the longer one is cut to the shorter), one generation list
      per pair. */
  function ParseResponse<V>(baseParse: V -> string, predictions: seq<Prediction<V>>, prompts: seq<string>)
    : (r: Result<seq<seq<Generation>>, VertexError>)
    ensures r.Success? ==> |r.value| == if |predictions| < |prompts| then |predictions| else |prompts|
    ensures r.Success? ==>
              forall i :: 0 <= i < |r.value| ==> Success(r.value[i]) == ParseOne(baseParse, predictions[i], prompts[i])
    ensures r.Failure? ==>
              exists i :: 0 <= i < |predictions| && i < |prompts| && ParseOne(baseParse, predictions[i], prompts[i]).Failure?
  {
    if |predictions| == 0 || |prompts| == 0 then Success([])
    else
      var first :- ParseOne(baseParse, predictions[0], prompts[0]);
      var rest :- ParseResponse(baseParse, predictions[1..], prompts[1..]);
      Success([first] + rest)
  }

  /** `{**kwargs, **self._default_params}`: every key of either map, the
      model's defaults winning on a clash. */
  function MergeParams<V>(kwargs: map<string, V>, defaults: map<string, V>): (r: map<string, V>)
    ensures r.Keys == kwargs.Keys + defaults.Keys
    ensures forall k :: k in defaults ==> r[k] == defaults[k]
    ensures forall k :: k in kwargs && k !in defaults ==> r[k] == kwargs[k]
  {
    kwargs + defaults
  }

  /** Merging the defaults in again changes nothing. */
  lemma MergeParamsIdempotent<V>(kwargs: map<string, V>, defaults: map<string, V>)
    ensures MergeParams(MergeParams(kwargs, defaults), defaults) == MergeParams(kwargs, defaults)
  {
  }
}
