/**
 * The chat-completion call both AI routes make through the OpenAI client
 * pointed at the Hugging Face router. The call itself is outside the model:
 * a route records the request it would send and receives the outcome as an
 * input.
 */
module Llm {
  import opened Wrappers

  /** The model both routes ask for. */
  const Model := "meta-llama/Llama-3.1-8B-Instruct"

  /** A request: system message, user message, token budget and temperature in tenths. */
  datatype LlmRequest = LlmRequest(model: string, system: string, prompt: string, maxTokens: nat, temperatureTenths: nat)

  /** The call either throws (with the error's message) or answers with a possibly missing `content`. */
  datatype LlmOutcome = LlmThrew(message: string) | LlmAnswered(content: Option<string>)
}
