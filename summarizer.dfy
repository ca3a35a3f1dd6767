/** `get_groq_response`: one chat-completion request pairing the fixed
    system prompt with the text to summarise. The completion service is
    not part of this model; its result is the `Completion` value. */
module Summarizer {

  /** The chat model named in the request. */
  const ModelName := "llama3-8b-8192"

  /** What the completion service did with one request. */
  datatype Completion = Completed(content: string) | CompletionFailed(reason: string)

  /** The text returned whenever the request raises. */
  const FailureText := "Error getting AI response."

  /** The string `get_groq_response` returns: the first choice's content, or
      the fixed failure text (never an exception and never a retry). The
      caller sees that text exactly when the request failed or the model
      itself answered with it. */
  function Respond(c: Completion): (r: string)
    ensures c.Completed? ==> r == c.content
    ensures r == FailureText <==> c.CompletionFailed? || c.content == FailureText
  {
    match c
    case Completed(content) => content
    case CompletionFailed(_) => FailureText
  }
}
