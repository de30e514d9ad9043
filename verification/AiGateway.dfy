/** What the meal-plan and growth-assistant functions observe of the AI gateway's answer
    — its status code and the first choice's message content — and the shape of their own
    answers. */
module AiGateway {
  import opened Common

  /** The error both functions raise when the gateway key is not configured. */
  const MissingKeyMessage: string := "LOVABLE_API_KEY is not configured"

  /** The gateway's answer: HTTP status and `choices[0].message.content`, when present. */
  datatype Upstream = Upstream(status: int, content: Option<string>)

  /** `response.ok`: a status in the 2xx range. */
  predicate IsOk(status: int) {
    200 <= status <= 299
  }

  /** A function's own answer: a 200 body, or an error status with the `error` text. */
  datatype Reply = Ok(body: string) | Failed(status: int, error: string)
}
