/**
 * The chat-completions provider (OpenRouter) as the application sees it.
 * The network call itself is not modelled: a route or the dispatcher hands
 * a `Request` to an abstract provider function and receives a `Reply`.
 */
module Provider {
  import opened Common

  /** One role-tagged chat message (`{ role, content }`). */
  datatype Message = Message(role: string, content: string)

  /**
   * The JSON body of one POST to the chat-completions endpoint. Sampling
   * parameters (temperature, top_p) are floating point and not modelled.
   */
  datatype Request = Request(
    model: string,
    messages: seq<Message>,
    maxTokens: int,
    jsonObjectFormat: bool)

  /** `choices[i].message`: its `content` may be absent. */
  datatype ReplyMessage = ReplyMessage(content: Option<string>)

  /** One element of `choices`: its `message` may be absent. */
  datatype Choice = Choice(message: Option<ReplyMessage>)

  /** A thrown JavaScript error: its `name` and `message`. */
  datatype JsError = JsError(name: string, message: string)

  /** `Error.prototype.toString`, which is what `${error}` prints. */
  function ErrorToString(e: JsError): (r: string)
    ensures e.name != "" && e.message != "" ==> r == e.name + ": " + e.message
    ensures e.message == "" ==> r == e.name
    ensures e.name == "" ==> r == e.message
  {
    if e.message == "" then e.name
    else if e.name == "" then e.message
    else e.name + ": " + e.message
  }

  /** `new Error(message)`. */
  function PlainError(message: string): JsError {
    JsError("Error", message)
  }

  /** What `response.json()` yields: a thrown parse error, or an object whose `choices` may be absent. */
  datatype Body = Unparsable(error: JsError) | Parsed(choices: Option<seq<Choice>>)

  /**
   * What `fetch` yields: an HTTP response (status, raw text, JSON view of the
   * same text), or a thrown transport error.
   */
  datatype Reply = Response(status: nat, text: string, body: Body) | NetworkError(error: JsError)

  /** `response.ok`. */
  predicate IsOk(status: nat) {
    200 <= status <= 299
  }

  /** `data.choices?.[0]?.message?.content`. */
  function FirstContent(body: Body): (r: Option<string>)
    ensures r.Some? <==>
      body.Parsed? && body.choices.Some? && |body.choices.value| > 0
      && body.choices.value[0].message.Some? && body.choices.value[0].message.value.content.Some?
  {
    match body
    case Unparsable(_) => None
    case Parsed(None) => None
    case Parsed(Some(choices)) =>
      if |choices| == 0 then None
      else match choices[0].message
        case None => None
        case Some(m) => m.content
  }

  /**
   * The content a route that calls the provider directly keeps: it must be
   * an ok response whose first choice carries a non-empty content; anything
   * else is thrown and ends in the route's catch-all 500.
   */
  function UsableContent(reply: Reply): (r: Option<string>)
    ensures r.Some? <==>
      reply.Response? && IsOk(reply.status) && FirstContent(reply.body).Some?
      && FirstContent(reply.body).value != ""
    ensures r.Some? ==> r.value == FirstContent(reply.body).value && r.value != ""
  {
    match reply
    case NetworkError(_) => None
    case Response(status, _, body) =>
      if !IsOk(status) then None
      else match FirstContent(body)
        case None => None
        case Some(c) => if c == "" then None else Some(c)
  }

  /** The single message a route sends: `[{ role: "user", content: prompt }]`. */
  function UserPrompt(prompt: string): seq<Message> {
    [Message("user", prompt)]
  }
}
