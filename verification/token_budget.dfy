/** Token budgeting: the prompt-token threshold left after reserving the
    output tokens and a fixed safety buffer, the per-example length check,
    and the choice between the standard chain and the long-text chain. */
module TokenBudget {

  /** Tokens reserved for BOS, EOS and similar special tokens. */
  const SafetyBuffer: int := 50

  /** `get_max_allowed_number_of_tokens`. */
  function MaxAllowedTokens(totalMax: int, maxOutput: int): (limit: int)
    ensures limit + maxOutput + SafetyBuffer == totalMax
  {
    totalMax - maxOutput - SafetyBuffer
  }

  /** Outcome of the per-example length check: too long is an error for the
      example; a prompt that leaves less than `maxOutput` tokens for the
      answer only produces a warning. */
  datatype LengthCheck = TooLong | MayTruncateOutput | Fits

  function CheckInputLength(promptTokens: int, totalMax: int, maxOutput: int): (c: LengthCheck)
    ensures c == TooLong <==> promptTokens > totalMax
    ensures c == MayTruncateOutput <==> promptTokens <= totalMax && promptTokens + maxOutput > totalMax
    ensures c == Fits <==> promptTokens <= totalMax && promptTokens + maxOutput <= totalMax
  {
    if promptTokens > totalMax then TooLong
    else if promptTokens + maxOutput > totalMax then MayTruncateOutput
    else Fits
  }

  datatype ChainKind = StandardChain | LongTextChain

  /** The long-text chain is used only for an example over the threshold and
      only when the bypass is switched on. */
  function ChooseChain(promptTokens: int, totalMax: int, maxOutput: int, bypassEnabled: bool): (k: ChainKind)
    ensures k == LongTextChain <==> bypassEnabled && promptTokens + maxOutput + SafetyBuffer > totalMax
  {
    if promptTokens > MaxAllowedTokens(totalMax, maxOutput) && bypassEnabled then LongTextChain else StandardChain
  }

  /** With the bypass off, as every model is constructed, every example goes
      through the standard chain, however long it is. */
  lemma BypassOffMeansStandard(promptTokens: int, totalMax: int, maxOutput: int)
    ensures ChooseChain(promptTokens, totalMax, maxOutput, false) == StandardChain
  {
  }
}
