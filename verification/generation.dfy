/** The request flow of `AbstractModel`: the constructor check, the prompt
    template (format instructions appended when an output schema is given),
    the chat messages, the per-example prediction with its token-budget
    check and error shaping, and the prediction of a whole batch in input
    order, whose responses are parsed when a schema is given.

    The language model is represented by three parameters: the prompt token
    counter, the response token counter and the chain runner, whose result
    is one of the provider outcomes below. The separator placed before the
    format instructions is a parameter too. */
module Generation {
  import opened Wrappers
  import opened Domain
  import opened TokenBudget
  import Placeholders
  import Validation
  import ResponseParsing

  /** The configuration a model instance carries. */
  datatype Model = Model(
    backend: AvailableModel,
    maxOutputTokens: int,
    totalMaxTokens: int,
    task: LanguageModelTask,
    longTextBypass: bool,
    aggregation: AggregationLogic,
    injectsFormatInstructions: bool)

  /** The constructor: rejects an output budget that is not below the total,
      and fixes the task, the bypass and the aggregation strategy. The Llama 2
      and Gemma adapters switch the format-instruction injection off. */
  function NewModel(backend: AvailableModel, maxOutputTokens: int, totalMaxTokens: int): (r: Result<Model, ValidationError>)
    ensures r.Failure? <==> maxOutputTokens >= totalMaxTokens
    ensures r.Failure? ==> r.error == OutputTokensNotBelowTotal
    ensures r.Success? ==>
              && r.value.backend == backend
              && r.value.maxOutputTokens == maxOutputTokens && r.value.totalMaxTokens == totalMaxTokens
              && r.value.task == Keywords && !r.value.longTextBypass && r.value.aggregation == SimpleConcatenation
              && (r.value.injectsFormatInstructions <==> backend != AzureLlama2 && backend != VertexGemma)
  {
    if maxOutputTokens >= totalMaxTokens then Failure(OutputTokensNotBelowTotal)
    else Success(Model(backend, maxOutputTokens, totalMaxTokens, Keywords, false, SimpleConcatenation,
                       backend != AzureLlama2 && backend != VertexGemma))
  }

  /** `_add_output_data_format`: the prompt, the separator, then the
      format-instructions placeholder. */
  function AddOutputDataFormat(prompt: string, separator: string): (r: string)
    ensures |r| == |prompt| + |separator| + |OutputDataModelKey| + 2
    ensures r[..|prompt|] == prompt
    ensures r[|prompt|..|prompt| + |separator|] == separator
    ensures r[|prompt| + |separator|..] == "{" + OutputDataModelKey + "}"
  {
    prompt + separator + "{" + OutputDataModelKey + "}"
  }

  /** The appended placeholder is a placeholder of the template, provided
      the separator does not end in `{`. */
  lemma FormatPlaceholderExtracted(prompt: string, separator: string)
    requires |separator| > 0 && separator[|separator| - 1] != '{'
    ensures OutputDataModelKey in Placeholders.Extract(AddOutputDataFormat(prompt, separator))
  {
    var s := AddOutputDataFormat(prompt, separator);
    var i := |prompt| + |separator|;
    var j := |s| - 1;
    var tail := "{" + OutputDataModelKey + "}";
    assert forall m :: 0 <= m < |tail| ==> s[i + m] == tail[m];
    assert s[i - 1] == separator[|separator| - 1];
    assert Placeholders.PlaceholderAt(s, i, j);
    assert s[i + 1..j] == OutputDataModelKey;
    Placeholders.ExtractSpec(s, OutputDataModelKey);
  }

  /** A chat message of the prompt template. The human message carries the
      format instructions as a partial variable when they were injected. */
  datatype ChatMessage = SystemMessage(template: string) | HumanMessage(template: string, withFormatInstructions: bool)

  /** The template string and chat messages `_generate` builds: the format
      placeholder is appended only with a schema and only on backends that
      inject it; a system message is added only for a non-empty system
      prompt. */
  function ChatPrompts(model: Model, prompt: string, separator: string, hasSchema: bool,
                       systemPrompt: Option<string>): (msgs: seq<ChatMessage>)
    ensures 1 <= |msgs| <= 2
    ensures msgs[|msgs| - 1].HumanMessage?
    ensures |msgs| == 2 <==> systemPrompt.Some? && |systemPrompt.value| > 0
    ensures |msgs| == 2 ==> msgs[0] == SystemMessage(systemPrompt.value)
    ensures var human := msgs[|msgs| - 1];
            && (human.withFormatInstructions <==> hasSchema && model.injectsFormatInstructions)
            && human.template == if human.withFormatInstructions then AddOutputDataFormat(prompt, separator) else prompt
  {
    var inject := hasSchema && model.injectsFormatInstructions;
    var human := HumanMessage(if inject then AddOutputDataFormat(prompt, separator) else prompt, inject);
    if systemPrompt.Some? && |systemPrompt.value| > 0 then [SystemMessage(systemPrompt.value), human] else [human]
  }

  /** What the token counter and the chain runner are given: the chat
      messages of the template and the example filled into them. */
  datatype Request = Request(msgs: seq<ChatMessage>, data: InputData)

  /** What the chain run ended with. `InvalidRequestRaised` and
      `CaughtRaised` are the exceptions `_predict_example` catches (the
      invalid-request error with its code; `InvalidArgument`, `ValueError`
      and the timeouts by type name); `Uncaught` is any other exception,
      including a retried transient error once the retries are used up. */
  datatype ProviderOutcome =
    | Completed(text: string)
    | InvalidRequestRaised(code: string, message: string)
    | CaughtRaised(typeName: string, message: string)
    | Uncaught(typeName: string, message: string)

  /** Why a whole `generate` call fails. */
  datatype GenerateError =
    | Invalid(error: ValidationError)
    | EmptyBatch                           // `input_data[0]` on an empty list
    | Unhandled(typeName: string, message: string)

  /** `_get_model_response_tokens_number`: no tokens for a missing or empty
      response. */
  function GeneratedTokens(countTokens: string -> nat, response: Option<string>): (n: nat)
    ensures (response.None? || response.value == "") ==> n == 0
    ensures response.Some? && response.value != "" ==> n == countTokens(response.value)
  {
    if response.Some? && |response.value| > 0 then countTokens(response.value) else 0
  }

  /** The back-reference stored in a result: omitted for an example with no
      mappings. */
  function BackReference(data: InputData): (r: Option<InputData>)
    ensures r.None? <==> |data.inputMappings| == 0
    ensures r.Some? ==> r.value == data
  {
    if |data.inputMappings| == 0 then None else Some(data)
  }

  /** The record `_predict_example` builds, before any output parsing: the
      response, when there is one, is the model's raw text. */
  datatype Prediction = Prediction(
    response: Option<string>,
    inputData: Option<InputData>,
    promptTokens: int,
    generatedTokens: int,
    error: Option<ResponseError>)

  /** The prediction as a `ResponseData` whose response is raw text. */
  function Record<P>(p: Prediction): (rd: ResponseData<P>)
    ensures rd.response.Some? <==> p.response.Some?
    ensures p.response.Some? ==> rd.response.value == Raw(p.response.value)
    ensures rd.inputData == p.inputData && rd.error == p.error
    ensures rd.promptTokens == p.promptTokens && rd.generatedTokens == p.generatedTokens
  {
    ResponseData(if p.response.Some? then Some(Raw(p.response.value)) else None,
                 p.inputData, p.promptTokens, p.generatedTokens, p.error)
  }

  /** What the chain chosen for the example ends with, were it run. */
  function ChainOutcome(model: Model, msgs: seq<ChatMessage>, data: InputData,
                        promptTokens: Request -> int,
                        run: Request -> ChainKind -> ProviderOutcome): ProviderOutcome
  {
    var tokens := promptTokens(Request(msgs, data));
    run(Request(msgs, data))(ChooseChain(tokens, model.totalMaxTokens, model.maxOutputTokens, model.longTextBypass))
  }

  /** The example's prompt is within the total budget, so the chain runs,
      and it ends with an exception `_predict_example` does not catch. */
  predicate Escapes(model: Model, msgs: seq<ChatMessage>, data: InputData,
                    promptTokens: Request -> int,
                    run: Request -> ChainKind -> ProviderOutcome)
  {
    && promptTokens(Request(msgs, data)) <= model.totalMaxTokens
    && ChainOutcome(model, msgs, data, promptTokens, run).Uncaught?
  }

  /** `_predict_example_of_any_length` and `_predict_example` for one example
      under the chat messages `msgs`. A prompt over the total budget is an
      error result and nothing is sent; otherwise the chosen chain runs and
      its outcome is shaped into a result, or escapes. */
  function PredictExample(model: Model, msgs: seq<ChatMessage>, data: InputData,
                          promptTokens: Request -> int,
                          run: Request -> ChainKind -> ProviderOutcome,
                          countTokens: string -> nat)
    : (r: Result<Prediction, GenerateError>)
    ensures var tokens := promptTokens(Request(msgs, data));
            tokens > model.totalMaxTokens ==>
              r == Success(Prediction(None, BackReference(data), tokens, 0,
                                      Some(PromptTooLong(data.id, tokens, model.totalMaxTokens))))
    ensures r.Failure? <==> Escapes(model, msgs, data, promptTokens, run)
    ensures r.Success? ==>
              && r.value.inputData == BackReference(data)
              && r.value.promptTokens == promptTokens(Request(msgs, data))
              && (r.value.response.None? <==> r.value.error.Some?)
              && (r.value.response.None? ==> r.value.generatedTokens == 0)
    ensures var tokens := promptTokens(Request(msgs, data));
            var outcome := ChainOutcome(model, msgs, data, promptTokens, run);
            tokens <= model.totalMaxTokens && outcome.Completed? ==>
              r == Success(Prediction(Some(outcome.text), BackReference(data), tokens,
                                      GeneratedTokens(countTokens, Some(outcome.text)), None))
    ensures var tokens := promptTokens(Request(msgs, data));
            var outcome := ChainOutcome(model, msgs, data, promptTokens, run);
            tokens <= model.totalMaxTokens && outcome.InvalidRequestRaised? ==>
              r == Success(Prediction(None, BackReference(data), tokens, 0,
                                      Some(if outcome.code == "content_filter" then ContentFiltered(outcome.message)
                                           else InvalidRequest(outcome.message))))
    ensures var tokens := promptTokens(Request(msgs, data));
            var outcome := ChainOutcome(model, msgs, data, promptTokens, run);
            tokens <= model.totalMaxTokens && outcome.CaughtRaised? ==>
              r == Success(Prediction(None, BackReference(data), tokens, 0,
                                      Some(Raised(outcome.typeName, outcome.message))))
    ensures var outcome := ChainOutcome(model, msgs, data, promptTokens, run);
            Escapes(model, msgs, data, promptTokens, run) ==>
              r == Failure(Unhandled(outcome.typeName, outcome.message))
  {
    var tokens := promptTokens(Request(msgs, data));
    var backReference := BackReference(data);
    if CheckInputLength(tokens, model.totalMaxTokens, model.maxOutputTokens) == TooLong then
      Success(Prediction(None, backReference, tokens, 0,
                         Some(PromptTooLong(data.id, tokens, model.totalMaxTokens))))
    else
      match ChainOutcome(model, msgs, data, promptTokens, run)
      case Completed(text) =>
        Success(Prediction(Some(text), backReference, tokens, GeneratedTokens(countTokens, Some(text)), None))
      case InvalidRequestRaised(code, message) =>
        var error := if code == "content_filter" then ContentFiltered(message) else InvalidRequest(message);
        Success(Prediction(None, backReference, tokens, GeneratedTokens(countTokens, None), Some(error)))
      case CaughtRaised(typeName, message) =>
        Success(Prediction(None, backReference, tokens, GeneratedTokens(countTokens, None),
                           Some(Raised(typeName, message))))
      case Uncaught(typeName, message) => Failure(Unhandled(typeName, message))
  }

  /** A prompt over the total budget never reaches the provider: the result
      does not depend on the chain runner. */
  lemma TooLongNeverDispatches(model: Model, msgs: seq<ChatMessage>, data: InputData,
                                  promptTokens: Request -> int,
                                  run1: Request -> ChainKind -> ProviderOutcome,
                                  run2: Request -> ChainKind -> ProviderOutcome,
                                  countTokens: string -> nat)
    requires promptTokens(Request(msgs, data)) > model.totalMaxTokens
    ensures PredictExample(model, msgs, data, promptTokens, run1, countTokens)
            == PredictExample(model, msgs, data, promptTokens, run2, countTokens)
  {
  }

  /** On a constructed model every example goes through the standard chain:
      the runner is only ever asked for it. */
  lemma ConstructedModelUsesStandardChain(backend: AvailableModel, maxOutputTokens: int, totalMaxTokens: int,
                                             msgs: seq<ChatMessage>, data: InputData,
                                             promptTokens: Request -> int,
                                             run: Request -> ChainKind -> ProviderOutcome,
                                             countTokens: string -> nat)
    requires NewModel(backend, maxOutputTokens, totalMaxTokens).Success?
    ensures var model := NewModel(backend, maxOutputTokens, totalMaxTokens).value;
            PredictExample(model, msgs, data, promptTokens, run, countTokens)
            == PredictExample(model, msgs, data, promptTokens,
                                 (q: Request) => (k: ChainKind) => run(q)(StandardChain), countTokens)
  {
    var model := NewModel(backend, maxOutputTokens, totalMaxTokens).value;
    BypassOffMeansStandard(promptTokens(Request(msgs, data)), model.totalMaxTokens, model.maxOutputTokens);
  }

  /** The index of the first example whose outcome escapes, or the batch
      size when none does. */
  function FirstEscaping(model: Model, msgs: seq<ChatMessage>, batch: seq<InputData>,
                         promptTokens: Request -> int,
                         run: Request -> ChainKind -> ProviderOutcome): (k: nat)
    ensures k <= |batch|
    ensures forall m :: 0 <= m < k ==> !Escapes(model, msgs, batch[m], promptTokens, run)
    ensures k < |batch| ==> Escapes(model, msgs, batch[k], promptTokens, run)
  {
    if |batch| == 0 then 0
    else if Escapes(model, msgs, batch[0], promptTokens, run) then 0
    else 1 + FirstEscaping(model, msgs, batch[1..], promptTokens, run)
  }

  /** The examples predicted in input order. `asyncio.gather` returns the
      results in that order; the first example (in input order) whose
      outcome escapes aborts the call. */
  function PredictAll(model: Model, msgs: seq<ChatMessage>, batch: seq<InputData>,
                         promptTokens: Request -> int,
                         run: Request -> ChainKind -> ProviderOutcome,
                         countTokens: string -> nat)
    : (r: Result<seq<Prediction>, GenerateError>)
    ensures r.Success? <==>
              forall k :: 0 <= k < |batch| ==> PredictExample(model, msgs, batch[k], promptTokens, run, countTokens).Success?
    ensures r.Success? ==> |r.value| == |batch|
    ensures r.Success? ==>
              forall k :: 0 <= k < |batch| ==>
                Success(r.value[k]) == PredictExample(model, msgs, batch[k], promptTokens, run, countTokens)
    ensures r.Failure? ==>
              exists k :: 0 <= k < |batch|
                && (forall m :: 0 <= m < k ==> PredictExample(model, msgs, batch[m], promptTokens, run, countTokens).Success?)
                && PredictExample(model, msgs, batch[k], promptTokens, run, countTokens) == Failure(r.error)
  {
    if |batch| == 0 then Success([])
    else
      var first := PredictExample(model, msgs, batch[0], promptTokens, run, countTokens);
      if first.Failure? then Failure(first.error)
      else
        var rest := PredictAll(model, msgs, batch[1..], promptTokens, run, countTokens);
        assert forall m :: 1 <= m < |batch| ==> batch[1..][m - 1] == batch[m];
        if rest.Failure? then
          Failure(rest.error)
        else
          var all := [first.value] + rest.value;
          assert forall m :: 1 <= m < |all| ==> all[m] == rest.value[m - 1];
          Success(all)
  }

  /** When no example's outcome escapes, the whole batch is predicted: one
      record per example in input order, each with its back-reference; an
      example is free of errors exactly when its prompt fits and its chain
      completed, and then it carries the model's text. */
  lemma PredictAllWhenNothingEscapes(model: Model, msgs: seq<ChatMessage>, batch: seq<InputData>,
                                     promptTokens: Request -> int,
                                     run: Request -> ChainKind -> ProviderOutcome,
                                     countTokens: string -> nat)
    requires forall k :: 0 <= k < |batch| ==> !Escapes(model, msgs, batch[k], promptTokens, run)
    ensures var r := PredictAll(model, msgs, batch, promptTokens, run, countTokens);
            && r.Success? && |r.value| == |batch|
            && forall k :: 0 <= k < |batch| ==>
                 var outcome := ChainOutcome(model, msgs, batch[k], promptTokens, run);
                 && r.value[k].inputData == BackReference(batch[k])
                 && (r.value[k].error.None? <==>
                       promptTokens(Request(msgs, batch[k])) <= model.totalMaxTokens && outcome.Completed?)
                 && (r.value[k].error.None? ==> r.value[k].response == Some(outcome.text))
  {
    var r := PredictAll(model, msgs, batch, promptTokens, run, countTokens);
    forall k | 0 <= k < |batch|
      ensures PredictExample(model, msgs, batch[k], promptTokens, run, countTokens).Success?
    {
    }
    assert r.Success?;
  }

  /** The examples a call predicts: the caller's, or one synthetic example
      without mappings when no input data is given. */
  function Batch(inputData: Option<seq<InputData>>): (batch: seq<InputData>)
    ensures inputData.Some? ==> batch == inputData.value
    ensures inputData.None? ==> batch == [InputData(map[], DefaultId)]
  {
    if inputData.None? then [InputData(map[], DefaultId)] else inputData.value
  }

  /** The two pre-flight checks of `_generate`, system prompt first. */
  function ValidateCall(backend: AvailableModel, prompt: string, inputData: Option<seq<InputData>>,
                        systemPrompt: Option<string>): (r: Outcome<ValidationError>)
    ensures r.Pass? <==> Validation.ValidateSystemPrompt(backend, systemPrompt).Pass?
                         && Validation.ValidateInput(prompt, inputData).Pass?
    ensures Validation.ValidateSystemPrompt(backend, systemPrompt).Fail? ==>
              r == Validation.ValidateSystemPrompt(backend, systemPrompt)
    ensures Validation.ValidateSystemPrompt(backend, systemPrompt).Pass? ==>
              r == Validation.ValidateInput(prompt, inputData)
  {
    var systemCheck := Validation.ValidateSystemPrompt(backend, systemPrompt);
    if systemCheck.Fail? then systemCheck else Validation.ValidateInput(prompt, inputData)
  }

  /** The record of one example predicted under `msgs`: its prediction,
      parsed with the schema when one is given, carrying the example's
      back-reference and prompt tokens. Without a schema, an example whose
      prompt fits and whose chain completed carries the model's text and no
      error. */
  ghost predicate RecordOf<P>(model: Model, msgs: seq<ChatMessage>, data: InputData,
                              schema: Option<string -> Result<P, string>>,
                              promptTokens: Request -> int,
                              run: Request -> ChainKind -> ProviderOutcome,
                              countTokens: string -> nat,
                              rec: ResponseData<P>)
  {
    var predicted := PredictExample(model, msgs, data, promptTokens, run, countTokens);
    var outcome := ChainOutcome(model, msgs, data, promptTokens, run);
    && predicted.Success?
    && rec.inputData == BackReference(data)
    && rec.promptTokens == promptTokens(Request(msgs, data))
    && (schema.None? ==> rec == Record(predicted.value))
    && (schema.Some? ==> rec == ResponseParsing.ParseRecord(schema.value, Record(predicted.value)))
    && (schema.None? && promptTokens(Request(msgs, data)) <= model.totalMaxTokens && outcome.Completed? ==>
          rec.response == Some(Raw(outcome.text)) && rec.error.None?)
  }

  /** The records of a batch predicted under `msgs`: one per example, in
      input order. */
  ghost predicate PredictedRecords<P>(model: Model, msgs: seq<ChatMessage>, batch: seq<InputData>,
                                      schema: Option<string -> Result<P, string>>,
                                      promptTokens: Request -> int,
                                      run: Request -> ChainKind -> ProviderOutcome,
                                      countTokens: string -> nat,
                                      records: seq<ResponseData<P>>)
  {
    && |records| == |batch|
    && forall k :: 0 <= k < |batch| ==>
         RecordOf(model, msgs, batch[k], schema, promptTokens, run, countTokens, records[k])
  }

  /** What predicting a batch under `msgs` ends with: success exactly when
      no example's outcome escapes, with the predicted records; otherwise
      the exception of the first example (in input order) that escapes. */
  ghost predicate BatchOutcome<P>(model: Model, msgs: seq<ChatMessage>, batch: seq<InputData>,
                                  schema: Option<string -> Result<P, string>>,
                                  promptTokens: Request -> int,
                                  run: Request -> ChainKind -> ProviderOutcome,
                                  countTokens: string -> nat,
                                  r: Result<seq<ResponseData<P>>, GenerateError>)
  {
    && (r.Success? <==> forall k :: 0 <= k < |batch| ==> !Escapes(model, msgs, batch[k], promptTokens, run))
    && (r.Success? ==> PredictedRecords(model, msgs, batch, schema, promptTokens, run, countTokens, r.value))
    && (r.Failure? ==>
          var k := FirstEscaping(model, msgs, batch, promptTokens, run);
          && k < |batch|
          && var outcome := ChainOutcome(model, msgs, batch[k], promptTokens, run);
             r.error == Unhandled(outcome.typeName, outcome.message))
  }

  /** Prediction of a non-empty batch followed, when a schema parser is
      given, by `parse_model_output`. */
  method PredictAndParse<P>(model: Model, msgs: seq<ChatMessage>, batch: seq<InputData>,
                            schema: Option<string -> Result<P, string>>,
                            promptTokens: Request -> int,
                            run: Request -> ChainKind -> ProviderOutcome,
                            countTokens: string -> nat)
    returns (r: Result<seq<ResponseData<P>>, GenerateError>)
    ensures r.Failure? <==> PredictAll(model, msgs, batch, promptTokens, run, countTokens).Failure?
    ensures r.Failure? ==> r.error == PredictAll(model, msgs, batch, promptTokens, run, countTokens).error
    ensures !PreflightFailure(r)
    ensures BatchOutcome(model, msgs, batch, schema, promptTokens, run, countTokens, r)
  {
    var predicted := PredictAll(model, msgs, batch, promptTokens, run, countTokens);
    if predicted.Failure? {
      return Failure(predicted.error);
    }
    var records := seq(|predicted.value|, k requires 0 <= k < |predicted.value| => Record<P>(predicted.value[k]));
    if schema.None? {
      return Success(records);
    }
    assert forall k :: 0 <= k < |records| ==> ResponseParsing.Parsable(records[k]);
    var parsed := ResponseParsing.ParseModelOutput(schema.value, records);
    return Success(parsed);
  }

  /** The call stopped before any prediction: validation failed, or the
      input list was empty. */
  predicate PreflightFailure<P>(r: Result<seq<ResponseData<P>>, GenerateError>)
  {
    r.Failure? && (r.error.Invalid? || r.error.EmptyBatch?)
  }
}
