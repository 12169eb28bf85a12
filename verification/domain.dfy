/** The records and enumerations the request-handling core passes around:
    the caller's per-example `InputData`, the per-example `ResponseData`, the
    parser's `ResponseParsingOutput`, the task and aggregation enumerations,
    the available backends, and the error conditions the core raises (as
    datatype cases instead of exception message texts). */
module Domain {
  import opened Wrappers

  /** One example: the values substituted for the prompt's placeholders, and
      the caller's identifier for the example. */
  datatype InputData = InputData(inputMappings: map<string, string>, id: string)
  {
    function InputKeys(): set<string> { inputMappings.Keys }
  }

  /** Identifier of the synthetic example built when no input data is given. */
  const DefaultId: string := "DEFAULT_ID"

  /** Name of the placeholder that receives the output schema's format
      instructions; it never has to be supplied by the caller. */
  const OutputDataModelKey: string := "output_data_model"

  /** A response is either the model's raw text or, after output parsing,
      the parsed schema instance (of the caller's type `P`). */
  datatype Payload<+P> = Raw(text: string) | Parsed(value: P)

  /** The per-example error messages, one case per message family. */
  datatype ResponseError =
    | PromptTooLong(exampleId: string, promptTokens: int, totalMaxTokens: int)
    | ContentFiltered(message: string)
    | InvalidRequest(message: string)
    | Raised(typeName: string, message: string)
    | OutputParseFailure(candidate: string, message: string)

  /** One result per example. Token counts are always filled in by the core. */
  datatype ResponseData<+P> = ResponseData(
    response: Option<Payload<P>>,
    inputData: Option<InputData>,
    promptTokens: int,
    generatedTokens: int,
    error: Option<ResponseError>)

  datatype ResponseParsingOutput<+P> = ResponseParsingOutput(response: Option<P>, errorMessage: Option<ResponseError>)

  datatype LanguageModelTask = Summary | Keywords

  datatype AggregationLogic = SimpleConcatenation | ReduceByLlmPrompting

  datatype AvailableModel =
    | AzureOpenAI
    | AzureLlama2
    | AzureMistral
    | VertexPalm2
    | VertexGemini
    | VertexGemma

  /** Pre-flight failures: each aborts the whole call before any request. */
  datatype ValidationError =
    | MissingKeysInPrompt(exampleId: string)
    | MissingKeysInInputData(exampleId: string)
    | KeyCountMismatch(exampleId: string)
    | KeySetMismatch(exampleId: string)
    | MissingInputData
    | SystemPromptUnsupported
    | SystemPromptHasVariables
    | OutputTokensNotBelowTotal
}
