/**
 * `POST /api/audio/generate`: prepares a note for speech synthesis. The
 * `enhanced` method asks the dispatcher to rewrite the text for listening,
 * `ssml` asks it for SSML markup, any other method returns the text itself,
 * cut to 4096 characters, for the browser's own synthesis.
 */
module AudioRoute {
  import opened Common
  import opened Text
  import opened Provider
  import opened Http
  import AiClient

  /**
   * The request body. `voice` and `speechMethod` (the `method` field) are `None` when undefined, the
   * only case their destructuring defaults cover; `text` and `noteId` are
   * the empty string when absent (the code only checks truthiness).
   */
  datatype Body = Body(text: string, voice: Option<string>, noteId: string, speechMethod: Option<string>)

  /** The `instructions` object; its rate, pitch and volume are floating-point constants, not modelled. */
  datatype Instructions = Instructions(voice: string)

  /** The three response shapes. */
  datatype Speech =
    | EnhancedSpeech(enhancedText: string, instructions: Instructions)
    | SsmlSpeech(ssmlText: string, instructions: Instructions)
    | WebSpeech(text: string, instructions: Instructions)
  {
    /** The `method` field of the response. */
    function MethodName(): string {
      match this
      case EnhancedSpeech(_, _) => "enhanced_web_speech"
      case SsmlSpeech(_, _) => "ssml"
      case WebSpeech(_, _) => "web_speech"
    }
  }

  const DefaultVoice := "alloy"
  const DefaultMethod := "enhanced"
  const PromptLimit := 3000
  const WebSpeechLimit := 4096
  const TextRequired := "Texte requis"

  const EnhanceHead := "Améliore ce texte pour qu'il soit plus agréable à écouter en synthèse vocale. \n        Ajoute des pauses naturelles, reformule les phrases complexes, et rends le contenu plus fluide pour l'écoute.\n        Garde le même contenu informatif mais optimise pour l'audio.\n        \n        Texte original: "
  const SsmlHead := "Convertis ce texte en SSML (Speech Synthesis Markup Language) pour améliorer la synthèse vocale.\n        Ajoute des balises pour les pauses, l'emphase, et la prononciation.\n        \n        Exemple de format SSML:\n        <speak>\n          <p>Voici un paragraphe avec <emphasis level=\"strong\">emphase</emphasis>.</p>\n          <break time=\"1s\"/>\n          <p>Et voici une pause d'une seconde.</p>\n        </speak>\n        \n        Texte à convertir: "

  /** The dispatcher options for a rewrite: the instruction followed by the first 3000 characters. */
  function RewriteOptions(head: string, text: string): (opts: AiClient.Options)
    ensures |opts.messages| == 1 && opts.messages[0].role == "user"
    ensures opts.messages[0].content == head + Take(text, PromptLimit)
    ensures opts.maxTokens == Some(2000) && !opts.jsonMode
  {
    AiClient.Options(UserPrompt(head + Take(text, PromptLimit)), Some(2000), false)
  }

  /** A rewritten text together with the requests made to obtain it. */
  datatype Rewrite = Rewrite(text: string, calls: seq<Request>)

  /**
   * `enhanceTextForSpeech` and `generateSSML` (they differ only in the
   * instruction): `content || text`, and the original text when the
   * dispatcher throws.
   */
  function RewriteText(head: string, text: string, apiKey: string, provider: Request -> Reply): (r: Rewrite)
    ensures var run := AiClient.GenerateAIResponse(apiKey, RewriteOptions(head, text), provider);
      && r.calls == run.calls
      && (run.result.Success? && run.result.value.Some? && run.result.value.value != "" ==>
            r.text == run.result.value.value)
      && (run.result.Failure? || run.result.value.None? || run.result.value.value == "" ==> r.text == text)
  {
    var run := AiClient.GenerateAIResponse(apiKey, RewriteOptions(head, text), provider);
    match run.result
    case Success(Some(content)) => Rewrite(if content != "" then content else text, run.calls)
    case Success(None) => Rewrite(text, run.calls)
    case Failure(_) => Rewrite(text, run.calls)
  }

  /**
   * `POST`. `userId` is the session's user id ("" without a session) and
   * `apiKey` the dispatcher's credential. `cachedAudio` is what the cache
   * lookup found; the route only logs it.
   */
  function Post(
    userId: string,
    body: Body,
    cachedAudio: Option<string>,
    apiKey: string,
    provider: Request -> Reply): (ex: Exchange<Speech>)
    ensures userId == "" ==> ex == Exchange(ErrorJson(401, Unauthorized), [])
    ensures userId != "" && body.text == "" ==> ex == Exchange(ErrorJson(400, TextRequired), [])
    ensures userId != "" && body.text != "" ==> ex.response.Json?
    ensures ex.response.Json? ==> ex.response.body.instructions.voice == body.voice.GetOr(DefaultVoice)
    ensures ex.response.Json? ==>
      var requested := body.speechMethod.GetOr(DefaultMethod);
      match ex.response.body
      case EnhancedSpeech(t, _) =>
        requested == "enhanced"
        && t == RewriteText(EnhanceHead, body.text, apiKey, provider).text
        && ex.calls == RewriteText(EnhanceHead, body.text, apiKey, provider).calls
      case SsmlSpeech(t, _) =>
        requested == "ssml"
        && t == RewriteText(SsmlHead, body.text, apiKey, provider).text
        && ex.calls == RewriteText(SsmlHead, body.text, apiKey, provider).calls
      case WebSpeech(t, _) =>
        requested != "enhanced" && requested != "ssml"
        && t == Take(body.text, WebSpeechLimit) && ex.calls == []
    ensures forall i :: 0 <= i < |ex.calls| ==>
      |ex.calls[i].messages| == 1 && Contains(ex.calls[i].messages[0].content, Take(body.text, PromptLimit))
  {
    if userId == "" then Exchange(ErrorJson(401, Unauthorized), [])
    else if body.text == "" then Exchange(ErrorJson(400, TextRequired), [])
    else
      var instructions := Instructions(body.voice.GetOr(DefaultVoice));
      var requested := body.speechMethod.GetOr(DefaultMethod);
      if requested == "enhanced" then
        var r := RewriteText(EnhanceHead, body.text, apiKey, provider);
        ContainsSuffix(EnhanceHead, Take(body.text, PromptLimit));
        Exchange(Json(EnhancedSpeech(r.text, instructions)), r.calls)
      else if requested == "ssml" then
        var r := RewriteText(SsmlHead, body.text, apiKey, provider);
        ContainsSuffix(SsmlHead, Take(body.text, PromptLimit));
        Exchange(Json(SsmlSpeech(r.text, instructions)), r.calls)
      else
        Exchange(Json(WebSpeech(Take(body.text, WebSpeechLimit), instructions)), [])
  }

  /** The cache lookup never changes what the route answers. */
  lemma CacheLookupIrrelevant(
    userId: string, body: Body, a: Option<string>, b: Option<string>,
    apiKey: string, provider: Request -> Reply)
    ensures Post(userId, body, a, apiKey, provider) == Post(userId, body, b, apiKey, provider)
  {
  }

  /** When the dispatcher cannot answer, the rewrite falls back to the full original text. */
  lemma RewriteFallsBackToOriginal(head: string, text: string, provider: Request -> Reply)
    ensures RewriteText(head, text, "", provider) == Rewrite(text, [])
  {
  }
}
