/** The records the gateway passes between its parts. */
module Types {
  import opened Wrappers
  import Json

  /** The two answers the reviewer can give. */
  datatype Decision = Same | Different

  /**
   * A candidate entity record. `properties` is whatever the request body held
   * under that name (`None` when absent); nothing checks its shape.
   */
  datatype Entity = Entity(entityLabel: string, entityType: string, properties: Option<Json.Json>)

  /** Token usage as the model provider reports it. */
  datatype Usage = Usage(promptTokens: nat, completionTokens: nat, totalTokens: nat)

  /**
   * A chat-completion reply: the text content of each candidate completion,
   * in order, and the usage record.
   */
  datatype CompletionResponse = CompletionResponse(choices: seq<string>, usage: Usage)

  /** The gateway's answer for one reviewed pair. */
  datatype ReviewResult = ReviewResult(decision: Decision, inputTokens: nat, outputTokens: nat, totalTokens: nat)
}
