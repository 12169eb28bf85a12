/** The pre-flight checks run before any request is sent: placeholder sets
    against each example's keys, the system-prompt rules, and the model
    construction check. Every failure aborts the whole call. */
module Validation {
  import opened Wrappers
  import opened Domain
  import Placeholders

  /** The check applied to one example against the prompt's placeholder set.
      The first applicable failure wins: keys without placeholders, then
      placeholders without keys, then a count mismatch, then a set
      mismatch. */
  function ValidateInputData(vars: set<string>, data: InputData): (r: Outcome<ValidationError>)
    ensures r.Pass? <==> data.InputKeys() == vars
    ensures r == Fail(MissingKeysInPrompt(data.id)) <==> |data.InputKeys()| > 0 && |vars| == 0
    ensures r == Fail(MissingKeysInInputData(data.id)) <==> |data.InputKeys()| == 0 && |vars| > 0
    ensures r == Fail(KeyCountMismatch(data.id)) <==>
              |data.InputKeys()| > 0 && |vars| > 0 && |data.InputKeys()| != |vars|
    ensures r == Fail(KeySetMismatch(data.id)) <==>
              |data.InputKeys()| == |vars| && data.InputKeys() != vars
  {
    var keys := data.InputKeys();
    if |keys| > 0 && |vars| == 0 then Fail(MissingKeysInPrompt(data.id))
    else if |keys| == 0 && |vars| > 0 then Fail(MissingKeysInInputData(data.id))
    else if |keys| != |vars| then Fail(KeyCountMismatch(data.id))
    else if vars != keys then Fail(KeySetMismatch(data.id))
    else Pass
  }

  /** Index of the first example whose keys differ from `vars`, or `|batch|`
      when every example matches. */
  function FirstMismatch(vars: set<string>, batch: seq<InputData>): (k: nat)
    ensures k <= |batch|
    ensures forall i :: 0 <= i < k ==> batch[i].InputKeys() == vars
    ensures k < |batch| ==> batch[k].InputKeys() != vars
  {
    if |batch| == 0 then 0
    else if batch[0].InputKeys() != vars then 0
    else 1 + FirstMismatch(vars, batch[1..])
  }

  /** The prompt's placeholders that the caller has to supply: the format
      instructions placeholder is filled in by the core itself. */
  function RequiredVariables(prompt: string): (vars: set<string>)
    ensures forall x :: x in vars <==> x in Placeholders.Extract(prompt) && x != OutputDataModelKey
  {
    Placeholders.Extract(prompt) - {OutputDataModelKey}
  }

  /** The input check of a whole call. A missing or empty batch passes only
      when no placeholder is required; otherwise the examples are checked in
      order and the first failing one aborts the batch. */
  function ValidateInput(prompt: string, inputData: Option<seq<InputData>>): (r: Outcome<ValidationError>)
    ensures r.Pass? <==>
              if inputData.Some? && |inputData.value| > 0
              then forall i :: 0 <= i < |inputData.value| ==> inputData.value[i].InputKeys() == RequiredVariables(prompt)
              else RequiredVariables(prompt) == {}
    ensures (inputData.None? || inputData.value == []) && r.Fail? ==> r.error == MissingInputData
    ensures inputData.Some? && |inputData.value| > 0 && r.Fail? ==>
              var k := FirstMismatch(RequiredVariables(prompt), inputData.value);
              k < |inputData.value| && r == ValidateInputData(RequiredVariables(prompt), inputData.value[k])
  {
    var vars := RequiredVariables(prompt);
    if inputData.Some? && |inputData.value| > 0 then
      var k := FirstMismatch(vars, inputData.value);
      if k == |inputData.value| then Pass else ValidateInputData(vars, inputData.value[k])
    else if |vars| > 0 then Fail(MissingInputData)
    else Pass
  }

  /** The system-prompt rules: the Mistral backend accepts none at all
      (even an empty one); elsewhere a non-empty system prompt must contain
      no placeholder. */
  function ValidateSystemPrompt(backend: AvailableModel, systemPrompt: Option<string>): (r: Outcome<ValidationError>)
    ensures r.Fail? <==>
              || (backend == AzureMistral && systemPrompt.Some?)
              || (backend != AzureMistral && systemPrompt.Some? && |systemPrompt.value| > 0
                  && Placeholders.Extract(systemPrompt.value) != {})
    ensures r.Fail? ==> r.error == (if backend == AzureMistral then SystemPromptUnsupported else SystemPromptHasVariables)
  {
    if backend == AzureMistral && systemPrompt.Some? then Fail(SystemPromptUnsupported)
    else if systemPrompt.Some? && |systemPrompt.value| > 0 then
      if Placeholders.Extract(systemPrompt.value) != {} then Fail(SystemPromptHasVariables) else Pass
    else Pass
  }

  /** A system prompt that is an escaped literal such as `{{x}}` passes. */
  lemma EscapedSystemPromptAccepted(backend: AvailableModel, literal: string)
    requires backend != AzureMistral
    requires Placeholders.BraceFree(literal)
    ensures ValidateSystemPrompt(backend, Some("{{" + literal + "}}")).Pass?
  {
    Placeholders.EscapedPlaceholder(literal);
  }

  /** A prompt whose only braces are an escaped literal validates against
      an example with no keys, and against the missing-input-data case. */
  lemma EscapedPromptNeedsNoKeys(literal: string, id: string)
    requires Placeholders.BraceFree(literal)
    ensures ValidateInput("{{" + literal + "}}", Some([InputData(map[], id)])).Pass?
    ensures ValidateInput("{{" + literal + "}}", None).Pass?
  {
    Placeholders.EscapedPlaceholder(literal);
  }

  /** A prompt with a placeholder and no input data is rejected before any
      request is made. */
  lemma PlaceholderWithoutInputDataRejected(name: string)
    requires |name| > 0 && Placeholders.BraceFree(name) && name != OutputDataModelKey
    ensures ValidateInput("{" + name + "}", None) == Fail(MissingInputData)
  {
    Placeholders.SinglePlaceholder(name);
    assert name in RequiredVariables("{" + name + "}");
  }
}
