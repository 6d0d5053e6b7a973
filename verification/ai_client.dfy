/**
 * The completion dispatcher (`generateAIResponse`): an ordered fallback
 * chain over a fixed list of free models. Each call starts afresh at the
 * head of the list, tries the candidates one at a time, and returns the
 * first usable answer; only when every candidate has failed does the call
 * fail, carrying the last candidate's error.
 */
module AiClient {
  import opened Common
  import opened Text
  import opened Provider

  /** The candidate models, in the order they are tried. */
  const FreeModels: seq<string> := [
    "google/gemini-2.0-flash-lite-preview-02-05:free",
    "mistralai/mistral-small-24b-instruct-2501:free",
    "meta-llama/llama-3.3-70b-instruct:free",
    "microsoft/phi-3-mini-128k-instruct:free"
  ]

  const DefaultMaxTokens := 2000

  /** `AIRequestOptions` without the floating-point temperature. */
  datatype Options = Options(messages: seq<Message>, maxTokens: Option<int>, jsonMode: bool)

  /** `options.max_tokens || 2000`: an absent or zero bound falls back to 2000. */
  function EffectiveMaxTokens(maxTokens: Option<int>): (r: int)
    ensures r != DefaultMaxTokens ==> maxTokens == Some(r)
    ensures (maxTokens.None? || maxTokens == Some(0)) ==> r == DefaultMaxTokens
    ensures maxTokens.Some? && maxTokens.value != 0 ==> r == maxTokens.value
    ensures r != 0
  {
    match maxTokens
    case None => DefaultMaxTokens
    case Some(n) => if n == 0 then DefaultMaxTokens else n
  }

  /** The body sent to one candidate; `response_format` is present only in JSON mode. */
  function RequestFor(model: string, opts: Options): (r: Request)
    ensures r.model == model && r.messages == opts.messages && r.jsonObjectFormat == opts.jsonMode
    ensures r.maxTokens != 0
    ensures opts.maxTokens.Some? && opts.maxTokens.value != 0 ==> r.maxTokens == opts.maxTokens.value
    ensures (opts.maxTokens.None? || opts.maxTokens == Some(0)) ==> r.maxTokens == DefaultMaxTokens
  {
    Request(model, opts.messages, EffectiveMaxTokens(opts.maxTokens), opts.jsonMode)
  }

  /** Why the whole call failed; `last` is the error the last candidate threw. */
  datatype DispatchError = MissingApiKey | AllModelsFailed(last: JsError)

  /** `new Error(\`Status ${response.status}\`)`. */
  function StatusError(status: nat): JsError {
    PlainError("Status " + NatToString(status))
  }

  const InvalidFormat := PlainError("Invalid response format from OpenRouter")

  /** `data.choices` is present and non-empty and its first element has a `message`. */
  predicate HasMessage(body: Body) {
    body.Parsed? && body.choices.Some? && |body.choices.value| > 0
    && body.choices.value[0].message.Some?
  }

  /**
   * One candidate: a non-ok status, a transport or JSON error, or a reply
   * without a first message fails; otherwise the message's content is the
   * answer, even when it is empty or absent.
   */
  function Attempt(reply: Reply): (r: Result<Option<string>, JsError>)
    ensures r.Success? <==> reply.Response? && IsOk(reply.status) && HasMessage(reply.body)
    ensures r.Success? ==> r.value == reply.body.choices.value[0].message.value.content
    ensures reply.Response? && !IsOk(reply.status) ==> r == Failure(StatusError(reply.status))
    ensures reply.NetworkError? ==> r == Failure(reply.error)
    ensures reply.Response? && IsOk(reply.status) && reply.body.Parsed? && !HasMessage(reply.body) ==>
      r == Failure(InvalidFormat)
  {
    match reply
    case NetworkError(e) => Failure(e)
    case Response(status, _, body) =>
      if !IsOk(status) then Failure(StatusError(status))
      else match body
        case Unparsable(e) => Failure(e)
        case Parsed(choices) =>
          if choices.None? || |choices.value| == 0 || choices.value[0].message.None? then
            Failure(InvalidFormat)
          else
            Success(choices.value[0].message.value.content)
  }

  /** The outcome of a call together with every request it sent, in order. */
  datatype Run = Run(result: Result<Option<string>, DispatchError>, calls: seq<Request>)

  /** What the provider answers `model` for this call. */
  function AttemptOn(model: string, opts: Options, provider: Request -> Reply): Result<Option<string>, JsError> {
    Attempt(provider(RequestFor(model, opts)))
  }

  /**
   * The loop over the candidates: stop at the first success, otherwise move
   * on; the last candidate's failure is the call's failure.
   */
  function Sweep(models: seq<string>, opts: Options, provider: Request -> Reply): (run: Run)
    requires |models| > 0
    ensures 1 <= |run.calls| <= |models|
    ensures forall i :: 0 <= i < |run.calls| ==> run.calls[i] == RequestFor(models[i], opts)
    ensures forall i :: 0 <= i < |run.calls| - 1 ==> AttemptOn(models[i], opts, provider).Failure?
    ensures run.result.Success? <==> AttemptOn(models[|run.calls| - 1], opts, provider).Success?
    ensures run.result.Success? ==>
      run.result.value == AttemptOn(models[|run.calls| - 1], opts, provider).value
    ensures run.result.Failure? ==>
      |run.calls| == |models|
      && run.result.error == AllModelsFailed(AttemptOn(models[|models| - 1], opts, provider).error)
    decreases |models|
  {
    var req := RequestFor(models[0], opts);
    match Attempt(provider(req))
    case Success(content) => Run(Success(content), [req])
    case Failure(e) =>
      if |models| == 1 then Run(Failure(AllModelsFailed(e)), [req])
      else
        var rest := Sweep(models[1..], opts, provider);
        Run(rest.result, [req] + rest.calls)
  }

  /**
   * `generateAIResponse`: a missing (undefined or empty) key fails before
   * any request; otherwise the candidates are swept in `FreeModels` order.
   */
  function GenerateAIResponse(apiKey: string, opts: Options, provider: Request -> Reply): (run: Run)
    ensures apiKey == "" ==> run == Run(Failure(MissingApiKey), [])
    ensures apiKey != "" ==> 1 <= |run.calls| <= |FreeModels|
    ensures forall i :: 0 <= i < |run.calls| ==> run.calls[i] == RequestFor(FreeModels[i], opts)
    ensures forall i :: 0 <= i < |run.calls| ==>
      run.calls[i].messages == opts.messages && run.calls[i].jsonObjectFormat == opts.jsonMode
  {
    if apiKey == "" then Run(Failure(MissingApiKey), [])
    else Sweep(FreeModels, opts, provider)
  }

  /** The candidate at position `k` answers this call. */
  predicate CandidateSucceeds(k: nat, opts: Options, provider: Request -> Reply)
    requires k < |FreeModels|
  {
    AttemptOn(FreeModels[k], opts, provider).Success?
  }

  /**
   * The first candidate that answers wins: its content is returned, the
   * earlier candidates were each tried once, and no later one is tried.
   */
  lemma FirstSuccessWins(apiKey: string, opts: Options, provider: Request -> Reply, k: nat)
    requires apiKey != "" && k < |FreeModels|
    requires CandidateSucceeds(k, opts, provider)
    requires forall j :: 0 <= j < k ==> !CandidateSucceeds(j, opts, provider)
    ensures GenerateAIResponse(apiKey, opts, provider).result
      == Success(AttemptOn(FreeModels[k], opts, provider).value)
    ensures GenerateAIResponse(apiKey, opts, provider).calls
      == seq(k + 1, i requires 0 <= i <= k => RequestFor(FreeModels[i], opts))
  {
    var run := GenerateAIResponse(apiKey, opts, provider);
    var n := |run.calls|;
    assert n - 1 < k ==> !CandidateSucceeds(n - 1, opts, provider);
    assert n - 1 < k ==> run.result.Failure? && n == |FreeModels|;
    assert n - 1 == k;
  }

  /** When every candidate fails, all four are tried and the last one's error is reported. */
  lemma AllCandidatesFail(apiKey: string, opts: Options, provider: Request -> Reply)
    requires apiKey != ""
    requires forall j :: 0 <= j < |FreeModels| ==> !CandidateSucceeds(j, opts, provider)
    ensures var last := AttemptOn(FreeModels[3], opts, provider);
      last.Failure? && GenerateAIResponse(apiKey, opts, provider).result == Failure(AllModelsFailed(last.error))
    ensures |GenerateAIResponse(apiKey, opts, provider).calls| == 4
  {
    var run := GenerateAIResponse(apiKey, opts, provider);
    assert !CandidateSucceeds(|run.calls| - 1, opts, provider);
  }

  /** The call succeeds exactly when the key is present and some candidate answers. */
  lemma SucceedsIffSomeCandidate(apiKey: string, opts: Options, provider: Request -> Reply)
    ensures GenerateAIResponse(apiKey, opts, provider).result.Success? <==>
      apiKey != "" && exists k :: 0 <= k < |FreeModels| && CandidateSucceeds(k, opts, provider)
  {
    var run := GenerateAIResponse(apiKey, opts, provider);
    if apiKey != "" {
      if run.result.Success? {
        assert CandidateSucceeds(|run.calls| - 1, opts, provider);
      } else {
        forall k | 0 <= k < |FreeModels|
          ensures !CandidateSucceeds(k, opts, provider)
        {
          assert k < |run.calls|;
        }
      }
    }
  }

  /** The `message` of the error `generateAIResponse` throws; `${lastError}` prints the last error. */
  function ErrorMessage(e: DispatchError): (msg: string)
    ensures e.AllModelsFailed? ==>
      StartsWith(msg, "All AI models failed. Last error: ")
      && msg[|"All AI models failed. Last error: "|..] == ErrorToString(e.last)
    ensures msg != ""
  {
    match e
    case MissingApiKey => "OPENROUTER_API_KEY is missing"
    case AllModelsFailed(last) => "All AI models failed. Last error: " + ErrorToString(last)
  }
}
