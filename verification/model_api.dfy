/** `generate`, the public entry point of a model: it validates the call
    and hands the batch to the request flow of `Generation`. */
module ModelApi {
  import opened Wrappers
  import opened Domain
  import opened TokenBudget
  import opened Generation

  /** `generate`: system-prompt check, input check, prediction of every
      example, then output parsing when a schema parser is given. The chat
      messages the chain is built from are passed to the token counter and
      the runner. */
  method Generate<P>(model: Model, prompt: string, inputData: Option<seq<InputData>>,
                     schema: Option<string -> Result<P, string>>, systemPrompt: Option<string>, separator: string,
                     promptTokens: Request -> int,
                     run: Request -> ChainKind -> ProviderOutcome,
                     countTokens: string -> nat)
    returns (r: Result<seq<ResponseData<P>>, GenerateError>)
    ensures ValidateCall(model.backend, prompt, inputData, systemPrompt).Fail? ==>
              r == Failure(Invalid(ValidateCall(model.backend, prompt, inputData, systemPrompt).error))
    ensures ValidateCall(model.backend, prompt, inputData, systemPrompt).Pass? && inputData == Some([]) ==>
              r == Failure(EmptyBatch)
    ensures ValidateCall(model.backend, prompt, inputData, systemPrompt).Pass? && inputData != Some([]) ==>
              !PreflightFailure(r)
    ensures !PreflightFailure(r) ==>
              BatchOutcome(model, ChatPrompts(model, prompt, separator, schema.Some?, systemPrompt), Batch(inputData),
                           schema, promptTokens, run, countTokens, r)
    ensures r.Success? && inputData.None? ==> |r.value| == 1 && r.value[0].inputData.None?
  {
    var check := ValidateCall(model.backend, prompt, inputData, systemPrompt);
    var batch := Batch(inputData);
    if check.Fail? {
      r := Failure(Invalid(check.error));
    } else if |batch| == 0 {
      r := Failure(EmptyBatch);
    } else {
      var msgs := ChatPrompts(model, prompt, separator, schema.Some?, systemPrompt);
      r := PredictAndParse(model, msgs, batch, schema, promptTokens, run, countTokens);
    }
  }
}
