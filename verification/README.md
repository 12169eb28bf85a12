# allms core, modelled in Dafny

`allms` wraps several large-language-model providers behind a single
`generate` call. The call takes a prompt template, a batch of `InputData`
examples (each a mapping from placeholder name to value, plus an id), an
optional output schema and an optional system prompt. It returns one
`ResponseData` per example: the response, a back-reference to the example,
the prompt and generated token counts, and an error.

This project models the core of that flow as pure Dafny functions and a few
methods, and proves properties of it.

- **Placeholders.** The placeholder names of a prompt template are the
  matches of `(?<!\{)\{([^{}]+)\}(?!\})`, collected into a set. Doubled
  braces are literal braces.
- **Validation.** Before any request is sent, the placeholder set is checked
  against each example's keys. Four distinct errors can result, and the
  first failing example aborts the call. The system-prompt rules and the
  constructor check are modelled too.
- **Token budget.** The per-example threshold is the total budget minus the
  output budget minus a 50-token buffer. The per-example length check has
  three outcomes: error, warning and fine. The choice between the standard
  chain and the long-text chain is modelled.
- **Per-example prediction.** The token check, the chain run and the shaping
  of the provider's outcome into a `ResponseData` are modelled. The cases are
  success, content filtered, other invalid request, caught exception, and an
  exception that escapes and aborts the whole call.
- **Output parsing.**
  - The first `{…}` span is taken from the model's text, the shortest match
    of `{.*?}`.
  - It is cleaned of `\n` escapes and backslashes.
  - It is handed to the schema parser.
  - Records that already carry an error pass through untouched.
- **Long text.**
  - Recursive splitting into overlapping halves until every chunk fits.
  - Recursive truncation to a prefix of the words.
  - The map step over the chunks.
  - The reduce step: summaries joined with a space, keyword lists
    concatenated, or one more model call.
- **Vertex AI post-processing.**
  - Blocked candidates are replaced by a sentinel generation.
  - The Model Garden echo `Prompt:\n<prompt>\nOutput:\n` is stripped; the
    text after its last occurrence is kept.
  - Predictions are zipped with prompts.
  - The model's default parameters are merged over the caller's.

The language model itself is a set of function parameters: the token
counter, the prompt formatter, the chain runner and the schema parser. The
same holds for the Vertex base class's prediction parser. Python's
`str.split()` and `" ".join` are modelled exactly, in module `Words`. That
includes the Unicode whitespace set of `str.isspace`.

Modules: `Wrappers` (Option/Result/Outcome), `Domain` (records and
enumerations), `Words`, `Placeholders`, `Validation`, `TokenBudget`,
`TextChunking`, `ResponseParsing`, `LongTextChain`, `VertexAI`,
`Generation` (the request flow) and `ModelApi` (`generate` itself).

Points where the code behaves differently from what a caller might expect:

- **Rate-limit and connection errors.** `_predict_example` catches only the
  invalid-request error, `InvalidArgument`, `ValueError` and the two
  timeouts (`allms/models/abstract.py:247-259`). Every other exception,
  including a rate-limit or connection error that outlives the retries,
  escapes `asyncio.gather` and aborts the whole call instead of becoming
  an error in that example's result. This is `Uncaught` / `Unhandled` in
  `Generation`.
- **Unbounded recursion in the splitter and the truncator.** The
  truncator's docstring (`allms/utils/long_text_processing_utils.py:17-26`)
  describes it as rerunning itself until the prompt fits. Neither recursion
  is bounded, and on some inputs each one calls itself on the same text
  again, so CPython stops it with a `RecursionError`:
  - A normalised text of at most 50 words that does not fit has a left half
    equal to itself (`TextChunking.SplitDivergesOnShortText`).
  - The truncator retries the same text when the token ratio keeps every
    word (`TextChunking.TruncateDivergesWhenNothingIsCut`).

  Both therefore carry a fuel bound, and running out of fuel stands for
  that `RecursionError`.
- **The threshold comparison.** The splitter needs the prompt strictly
  below the threshold (`<`). The truncator accepts equality (`<=`).
- **The overlap in recursive calls.** The splitter's own recursive calls use
  the default overlap of 50 words, whatever overlap the caller passed.

## Model

| member | source | states |
|---|---|---|
| Words.Split | allms/utils/long_text_processing_utils.py:76 | `text.split()` yields only non-empty, whitespace-free words |
| Words.SplitKeepsCharacters | allms/utils/long_text_processing_utils.py:76 | the words, laid end to end, are exactly the text's non-whitespace characters in order |
| Words.SplitAtSpace | allms/utils/long_text_processing_utils.py:76 | a whitespace character separates: the text on either side of it is split independently and the word lists are concatenated |
| Words.Join | allms/utils/long_text_processing_utils.py:81-82 | `" ".join(words)`, used for the truncated text (line 53), the two halves and the joined summaries; it has no contract of its own: `Words.SplitJoin` makes it the inverse of split on word lists, and `Words.JoinLength`, `Words.JoinAppend` and `Words.JoinEnds` give its length, its concatenation law and its first and last words |
| Words.JoinEnds | allms/utils/long_text_processing_utils.py:53 | a joined list of words starts with its first word and ends with its last |
| Words.SplitJoin | allms/utils/long_text_processing_utils.py:76-82 | splitting the space-join of a list of words gives back exactly that list |
| Words.JoinIsNormalised | allms/utils/long_text_processing_utils.py:81-82 | a space-joined list of words is left unchanged by another split-and-join |
| Words.JoinAppend | allms/chains/long_text_processing_chain.py:76-78 | joining a concatenation of two non-empty lists is joining each and putting one space between |
| Words.JoinLength | allms/chains/long_text_processing_chain.py:76-78 | a joined text is as long as its pieces plus one separator between each pair |
| Placeholders.Extract | allms/models/abstract.py:325-329 | the placeholder set: every name non-empty and brace-free; a text without `{` has none |
| Placeholders.ExtractFrom | allms/models/abstract.py:326-329 | every extracted name is non-empty and brace-free |
| Placeholders.ExtractFromSpec | allms/models/abstract.py:326-329 | the left-to-right scan from index k yields exactly the names of the regex matches starting at or after k |
| Placeholders.ExtractSpec | allms/models/abstract.py:325-329 | a name is extracted iff it sits between a `{` not preceded by `{` and a `}` not followed by `}`, with no brace in between |
| Placeholders.SinglePlaceholder | allms/models/abstract.py:326-329 | `{name}` yields exactly the placeholder `name` |
| Placeholders.EscapedPlaceholder | allms/models/abstract.py:303-305 | `{{name}}` yields no placeholder, so JSON-like literals can be passed in a prompt |
| Validation.ValidateInputData | allms/models/abstract.py:331-346 | an example passes iff its key set equals the placeholder set; each of the four errors is raised exactly under its own condition, in the source's order |
| Validation.FirstMismatch | allms/models/abstract.py:310-312 | the index of the first example whose keys differ from the placeholders; every earlier example matches |
| Validation.RequiredVariables | allms/models/abstract.py:306-308 | the prompt's placeholders minus the format-instructions placeholder |
| Validation.ValidateInput | allms/models/abstract.py:302-315 | a non-empty batch passes iff every example's keys are the required placeholders, and otherwise fails with the first mismatching example's error; a missing or empty batch passes iff no placeholder is required, and otherwise fails with the missing-input-data error |
| Validation.ValidateSystemPrompt | allms/models/abstract.py:317-323 | fails iff the backend is Mistral and a system prompt is given, or another backend gets a non-empty system prompt with placeholders; the error names which |
| Validation.EscapedSystemPromptAccepted | allms/models/abstract.py:320-323 | an escaped literal system prompt is accepted on every backend except Mistral |
| Validation.EscapedPromptNeedsNoKeys | allms/models/abstract.py:302-315 | a prompt whose only braces are an escaped literal validates with an example without keys and without input data |
| Validation.PlaceholderWithoutInputDataRejected | allms/models/abstract.py:313-315 | a prompt with a placeholder and no input data fails with the missing-input-data error |
| TokenBudget.MaxAllowedTokens | allms/utils/long_text_processing_utils.py:92-94 | the threshold plus the output budget plus the 50-token buffer is the total budget |
| TokenBudget.CheckInputLength | allms/models/abstract.py:175-193 | too long iff over the total budget; a warning iff within it but the prompt plus the output budget exceeds it; fine otherwise |
| TokenBudget.ChooseChain | allms/models/abstract.py:206-216 | the long-text chain iff the bypass is on and the prompt exceeds the threshold |
| TokenBudget.BypassOffMeansStandard | allms/models/abstract.py:214-216 | with the bypass off, every example takes the standard chain |
| TextChunking.PySliceBound | allms/utils/long_text_processing_utils.py:81-82 | a Python slice bound: negative bounds count from the end, out-of-range ones are clamped |
| TextChunking.SplitHalves | allms/utils/long_text_processing_utils.py:76-82 | the left half is a prefix and the right half a suffix of the words; with a non-negative overlap together they cover every word |
| TextChunking.HalvesShrinkIff | allms/utils/long_text_processing_utils.py:76-82 | both halves are strictly shorter than the text iff the overlap satisfies the stated bounds against the midpoint (negative right bounds wrapping) |
| TextChunking.DefaultOverlapShrinkIff | allms/utils/long_text_processing_utils.py:76-82 | with the default overlap of 50, both halves shrink iff the text has at least 52 words |
| TextChunking.HalfChunksProperties | allms/utils/long_text_processing_utils.py:84-89 | the chunks of a half are normalised and each is a contiguous run of the whole text's words |
| TextChunking.SplitText | allms/utils/long_text_processing_utils.py:64-89 | a fitting text is its own single chunk; otherwise the result is non-empty; every chunk fits strictly; every chunk is the text itself or normalised; every chunk's words are a contiguous run of the text's words; with a non-negative overlap the first chunk's words are a prefix of the text's, the last chunk's a suffix, and every word of the text is in some chunk |
| TextChunking.SplitTextHalves | allms/utils/long_text_processing_utils.py:84-89 | a text that does not fit fails without fuel; with fuel its chunks exist iff both halves' chunks exist, and they are the left half's chunks followed by the right half's |
| TextChunking.SplitIntoTwoFittingHalves | allms/utils/long_text_processing_utils.py:76-89 | a text that does not fit whose two halves each fit is split into exactly the two re-joined halves, left first |
| TextChunking.CoverStep | allms/utils/long_text_processing_utils.py:79-89 | if the chunks of each half cover that half, the left chunks followed by the right ones cover the whole text's words (non-negative overlap) |
| TextChunking.SplitDivergesOnShortText | allms/utils/long_text_processing_utils.py:64-89 | a normalised text of at most 50 words that does not fit runs out of any fuel: the source recursion is unbounded and ends in a `RecursionError` |
| TextChunking.SplitDivergesWhenLeftIsWhole | allms/utils/long_text_processing_utils.py:84-89 | a text that does not fit and whose left half rejoins to itself runs out of any fuel |
| TextChunking.ShortLeftHalfIsWhole | allms/utils/long_text_processing_utils.py:76-81 | for at most 50 words the default left half rejoins to the normalised text itself |
| TextChunking.KeptWords | allms/utils/long_text_processing_utils.py:49-51 | the kept word count is the floor of the word count scaled by tokens left over text tokens |
| TextChunking.Truncate | allms/utils/long_text_processing_utils.py:10-61 | a text within the threshold is returned unchanged; the instruction-too-long error when no tokens are left for the text; the no-tokens error when the text over the threshold has a zero token count; the fuel error when tokens are left and fuel is exhausted; any result fits the threshold, its words are a prefix of the text's, and it is the text itself or normalised |
| TextChunking.TruncateInOneStep | allms/utils/long_text_processing_utils.py:33-61 | a text over the threshold whose ratio-sized word prefix fits is truncated to exactly that prefix re-joined by single spaces |
| TextChunking.TruncateStep | allms/utils/long_text_processing_utils.py:33-61 | a text over the threshold with tokens left for it is truncated exactly as its ratio-sized word prefix, re-joined by single spaces, is with one less unit of fuel: the source's re-run on the shortened text |
| TextChunking.TruncateStepShrinks | allms/utils/long_text_processing_utils.py:49-53 | one truncation step removes words iff the scaled count is below the word count |
| TextChunking.TruncateDivergesWhenNothingIsCut | allms/utils/long_text_processing_utils.py:34-61 | a normalised text that does not fit but whose token count is within the tokens left runs out of any fuel: the source recursion is unbounded and ends in a `RecursionError` |
| ResponseParsing.RemoveEscapedNewlines | allms/utils/response_parsing_utils.py:16 | never lengthens the text; a text without a backslash-`n` pair is unchanged |
| ResponseParsing.RemoveEscapedNewlinesCount | allms/utils/response_parsing_utils.py:16 | no character's count grows, and characters other than backslash and `n` keep their counts |
| ResponseParsing.RemoveEscapedNewlinesPairs | allms/utils/response_parsing_utils.py:16 | as many backslashes as `n`s are removed |
| ResponseParsing.RemoveBackslashes | allms/utils/response_parsing_utils.py:17 | the result has no backslash, every other character keeps its count, a backslash-free text is unchanged |
| ResponseParsing.Clean | allms/utils/response_parsing_utils.py:15-19 | the cleaned text has no backslash and is a sub-multiset of the input; characters other than backslash and `n` keep their counts; a backslash-free text is unchanged |
| ResponseParsing.CleanIdempotent | allms/utils/response_parsing_utils.py:15-19 | cleaning twice is cleaning once |
| ResponseParsing.JsonSpanUnique | allms/utils/response_parsing_utils.py:22 | the first-match span of `{.*?}` is unique |
| ResponseParsing.ExtractJson | allms/utils/response_parsing_utils.py:21-27 | the cleaned first span when there is one, the whole text unchanged when no `{` has a `}` after it |
| ResponseParsing.ExtractEmbeddedJson | allms/utils/response_parsing_utils.py:21-27 | a flat, backslash-free object after brace-free chatter is extracted exactly |
| ResponseParsing.ParseResponse | allms/utils/response_parsing_utils.py:29-47 | exactly one of value and error; the value iff the parser accepts the extracted candidate; the error records the candidate and the parser's message |
| ResponseParsing.ParseRecord | allms/utils/response_parsing_utils.py:56-68 | an errored record is returned unchanged; otherwise the back-reference and token counts are kept, exactly one of parsed value and parse error is set, no error iff the parser accepts the extracted candidate, and the error is the candidate with the parser's message |
| ResponseParsing.ParseRecordIsParseResponse | allms/utils/response_parsing_utils.py:56-63 | for a record without an error, the record's error and parsed value are those of `_parse_response` on its text |
| ResponseParsing.ParseModelOutput | allms/utils/response_parsing_utils.py:49-70 | one record per input record, in order, each parsed as above; errored records untouched |
| LongTextChain.MapStep | allms/chains/long_text_processing_chain.py:46-48 | one response per chunk, in chunk order |
| LongTextChain.MapStepAppend | allms/chains/long_text_processing_chain.py:46-48 | mapping a concatenation maps each part in place |
| LongTextChain.ParseAll | allms/chains/long_text_processing_chain.py:76-78 | succeeds iff every response parses, with the values in order; a failure names the first response that does not parse |
| LongTextChain.ConcatenateSummaries | allms/chains/long_text_processing_chain.py:74-78 | no summaries give the empty text, one gives itself, n give their lengths plus n-1 spaces |
| LongTextChain.ConcatenateSummariesAppend | allms/chains/long_text_processing_chain.py:74-78 | concatenating the summaries of two runs of chunks puts exactly one space between the two results |
| LongTextChain.FoldConcat | allms/chains/long_text_processing_chain.py:82-86 | the fold keeps the accumulator as a prefix, puts the first list right after it, and is as long as the accumulator plus all the lists |
| LongTextChain.FoldConcatIsFlatten | allms/chains/long_text_processing_chain.py:82-86 | the left fold of list concatenation from an accumulator is the accumulator followed by the lists end to end |
| LongTextChain.FlattenLength | allms/chains/long_text_processing_chain.py:82-86 | the flattened list is as long as the lists together |
| LongTextChain.FlattenMembership | allms/chains/long_text_processing_chain.py:82-86 | a keyword is in the flattened list iff it is in one of the lists |
| LongTextChain.ConcatenateKeywords | allms/chains/long_text_processing_chain.py:80-86 | the keyword lists end to end, with every keyword kept with its multiplicity; a single list is returned as is |
| LongTextChain.DeserialiseAll | allms/chains/long_text_processing_chain.py:59-72 | succeeds iff every response parses under the task's deserialiser; then one output per response, in order, holding that response's parsed value; a failure is the first rejected response's |
| LongTextChain.ReduceStep | allms/chains/long_text_processing_chain.py:50-57 | the model reduce iff so configured; simple concatenation gives the joined summaries or the flattened keywords, or the first parse failure |
| LongTextChain.CombineDocs | allms/chains/long_text_processing_chain.py:29-41 | fails for lack of fuel iff the splitter does; otherwise the reduce step applied to the map chain's responses to the chunks, in chunk order; a text that fits is mapped once and reduced |
| LongTextChain.ChunkSummariesJoined | allms/chains/long_text_processing_chain.py:29-41 | a text the splitter cuts into given chunks whose responses parse to given summaries, summarised and concatenated, succeeds with exactly those summaries in chunk order joined with single spaces |
| LongTextChain.SingleChunkSummaryUnchanged | allms/chains/long_text_processing_chain.py:29-41 | a fitting text, summarised and concatenated, gives back exactly its one chunk's summary |
| VertexAI.WasBlocked | allms/models/vertexai_base.py:20-25 | not blocked without generation info or without an `is_blocked` entry; otherwise the entry decides |
| VertexAI.MarkBlocked | allms/models/vertexai_base.py:20-50 | same shape; a candidate is replaced by the sentinel exactly when it was blocked; no blocked candidate remains; the other fields are kept |
| VertexAI.MarkBlockedIdempotent | allms/models/vertexai_base.py:20-50 | marking twice is marking once |
| VertexAI.LastOccurrence | allms/models/vertexai_base.py:92 | the last index where the marker occurs, or none when it does not occur |
| VertexAI.ParsePrediction | allms/models/vertexai_base.py:88-94 | fails iff the echo marker does not occur; otherwise the text after its last occurrence |
| VertexAI.PredictionAfterEcho | allms/models/vertexai_base.py:88-94 | echo plus marker plus output gives back the output when no later marker starts inside it |
| VertexAI.ParseCandidates | allms/models/vertexai_base.py:80-85 | succeeds iff every candidate has the echo; then one plain generation per candidate, in order |
| VertexAI.ParseOne | allms/models/vertexai_base.py:76-85 | a string prediction gives the one generation of its stripped text; a list gives, in order, the generation of each element's stripped text; it fails iff some echo is missing |
| VertexAI.ParseResponse | allms/models/vertexai_base.py:74-86 | as many generation lists as the shorter of predictions and prompts, each the parse of its pair; a failure comes from some pair |
| VertexAI.MergeParams | allms/models/vertexai_base.py:103 | the keys of both maps; the model's defaults win on a clash |
| VertexAI.MergeParamsIdempotent | allms/models/vertexai_base.py:103 | merging the defaults in again changes nothing |
| Generation.NewModel | allms/models/abstract.py:51-65 | rejected iff the output budget is not below the total; fixes the keyword task, bypass off and simple concatenation; injection off exactly for Llama 2 and Gemma |
| Generation.AddOutputDataFormat | allms/models/abstract.py:171-173 | the prompt, then the separator, then `{output_data_model}` |
| Generation.FormatPlaceholderExtracted | allms/models/abstract.py:171-173 | the appended format placeholder is a placeholder of the template |
| Generation.ChatPrompts | allms/models/abstract.py:124-169 | a human message, preceded by a system message iff the system prompt is non-empty; format instructions injected iff a schema is given and the backend injects them |
| Generation.GeneratedTokens | allms/models/abstract.py:86-89 | zero for a missing or empty response, the counter's value otherwise |
| Generation.BackReference | allms/models/abstract.py:261-267 | the example is referenced iff it has mappings |
| Generation.PredictExample | allms/models/abstract.py:195-267 | a prompt over the total budget gives the prompt-too-long record and nothing is sent; a completed chain gives its text as the response with its generated-token count and no error; an invalid request gives the content-filter error iff its code is `content_filter` and the invalid-request error otherwise; a caught exception gives its type name and message; an uncaught one escapes, and nothing else does; every record carries the back-reference and the prompt tokens |
| Generation.TooLongNeverDispatches | allms/models/abstract.py:227-238 | a prompt over the total budget never reaches the provider |
| Generation.ConstructedModelUsesStandardChain | allms/models/abstract.py:214-216 | a constructed model only ever runs the standard chain |
| Generation.FirstEscaping | allms/models/abstract.py:153-157 | the index of the first example, in input order, whose outcome escapes, or the batch length when none does: no earlier example escapes and the one at that index does |
| Generation.PredictAll | allms/models/abstract.py:153-157 | succeeds iff every example does, results in input order; a failure is the first escaping example's |
| Generation.PredictAllWhenNothingEscapes | allms/models/abstract.py:153-157 | when no example's outcome escapes, every example is predicted in order with its back-reference, error-free exactly when its prompt fits and its chain completed, and then carrying the model's text |
| Generation.Batch | allms/models/abstract.py:120-122 | the caller's examples, or one example without mappings and with the default id |
| Generation.ValidateCall | allms/models/abstract.py:118-119 | passes iff both checks pass; the system-prompt error comes first |
| Generation.PredictAndParse | allms/models/abstract.py:98-109 | fails iff some example's outcome escapes, with the first such example's error, never with a validation or empty-batch error; one record per example in order, parsed iff a schema is given; without a schema a completed example carries the model's text |
| ModelApi.Generate | allms/models/abstract.py:91-157 | validation errors abort the call; after validation an empty list fails with the empty-batch error; otherwise the call succeeds iff no example's outcome escapes, and a failure is the first escaping example's exception; one record per example in input order with its back-reference and prompt tokens, parsed with the schema when one is given and otherwise that example's prediction, a completed example carrying the model's text |

## Left out

- Concurrency: the semaphore, the event loop and the interleaving of
  `asyncio.gather`. Results are modelled in input order. When several
  examples escape, the one reported is the first in input order, not the
  first to finish.
- The retry decorator (`allms/models/abstract.py:70-77`). Retries are
  invisible to the per-example flow. A transient error that survives them
  is an `Uncaught` provider outcome.
- Logging, the provider adapters' constructors and clients, network I/O,
  and the `generate` wrapper's event-loop plumbing. The separate `_generate`
  and `generate` layers are one method here.
- Exact error message texts. Each message is an error case carrying the data
  it interpolates.
- The Llama 2 and Gemma adapters: only the injection flag they switch off
  is modelled. The other adapters' settings are not part of this model.
- Files that are not part of this model:
  - `allms/constants/prompt.py` and `allms/constants/input_data.py`. The
    format placeholder's name is taken to be `output_data_model`, as in the
    aggregation prompt of `allms/defaults/long_text_chain.py`. The default
    example id is `DEFAULT_ID`. The separator before the placeholder is a
    parameter.
  - `allms/constants/vertex_ai.py`. The blocked-response sentinel is a
    parameter.
- The template variable list built from `input_data[0]`, and the prompt
  formatting itself. The prompt token count is a parameter that receives
  the chat messages and the example.
- LongTextChain.ReduceStep: the language-model reduce and its aggregation
  prompt, and the `.json()` rendering of the reduced value. The reduce
  call is a parameter, and the reduced value is returned as a datatype.
- LongTextChain.CombineDocs splits with the default overlap. The chain
  built by `_get_chain_for_long_text` is only reached with the bypass on,
  and the constructor keeps the bypass off.
- TextChunking.SplitText and TextChunking.Truncate carry a fuel bound,
  because the source recursions are unbounded. Running out of fuel is an
  explicit result that stands for CPython's `RecursionError`; the
  recursion depth at which CPython raises it is not modelled.
- Words.Join has no contract of its own. What it computes is stated by
  the lemmas `Words.SplitJoin`, `Words.JoinLength`, `Words.JoinAppend` and
  `Words.JoinEnds`, so that proofs about joined text use only the facts they need.
- TextChunking.KeptWords uses the exact integer quotient. The source
  computes `int(len(words) / (text_tokens / tokens_left))` in floating
  point, so the two can differ by rounding.
- TextChunking.Truncate: a text with zero tokens that does not fit gives
  the `ZeroDivisionError` case (`TextHasNoTokens`). Its message is not
  modelled.
- ResponseParsing.ParseRecord takes as its precondition a record without
  an error whose response is raw text. In the source, a record without an
  error and without a response would crash in `re.findall`.
- An empty error string counts as no error in the source (`if not
  model_response_data.error`). The model's error is an option, so the
  empty-string case is not represented.
- ResponseParsing.ExtractJson does not round-trip nested JSON objects: the
  lazy match stops at the first `}`. The model follows the code, and
  `ResponseParsing.ExtractEmbeddedJson` states the flat case only.
- `generation_info` values are represented by their truth value. The
  sentinel generation's other fields are the defaults.
- ModelApi.Generate: an empty input list with no placeholders passes
  validation and then fails on `input_data[0]` with an `IndexError`. That
  is the `EmptyBatch` error.
