/**
 * The language-model service, as this model runs the cleaner: without
 * credentials. Start-up then sets `aibot_available` and `USE_LLM` to false,
 * and `call_aibot` returns None before it builds any request.
 */
module Aibot {
  import opened Wrappers

  const AIBOT_AVAILABLE: bool := false

  /** The process-wide default for using the service, forced off when it is unavailable. */
  const USE_LLM: bool := false

  /** `call_aibot`: with the service unavailable the reply is always missing, whatever the prompt. */
  function CallAibot(): (reply: Option<string>)
    ensures !AIBOT_AVAILABLE ==> reply.None?
  {
    None
  }

  /**
   * What an augmented step receives: a reply only when the step asked for
   * the service (`use_llm_now`) and the service is configured.
   */
  function Reply(useLlm: bool): (reply: Option<string>)
    ensures reply.None?
  {
    if useLlm && AIBOT_AVAILABLE then CallAibot() else None
  }

  /** `use_llm_override if use_llm_override is not None else USE_LLM`. */
  function EffectiveFlag(useLlmOverride: Option<bool>): bool {
    useLlmOverride.GetOr(USE_LLM)
  }
}
