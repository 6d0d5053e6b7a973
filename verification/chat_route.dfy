/**
 * `POST /api/ai/chat`: a tutoring chat about one note. A system message
 * carrying the note is put in front of the conversation and the whole
 * sequence goes through the completion dispatcher.
 */
module ChatRoute {
  import opened Common
  import opened Text
  import opened Provider
  import opened Http
  import AiClient

  /**
   * The request body: `messages` is `None` when absent or not an array;
   * an absent `noteContent` is the empty string.
   */
  datatype Body = Body(messages: Option<seq<Message>>, noteContent: string)

  /** `{ content }`: the dispatcher's answer, which may be absent. */
  datatype Answer = Answer(content: Option<string>)

  const MessagesRequired := "Messages requis"
  const NoNoteContent := "Aucun contenu de note fourni."

  const SystemHead := "Tu es un assistant pédagogique intelligent pour l'application SamaNote.\n      Ton rôle est d'aider l'étudiant à comprendre ses notes, à réviser et à approfondir ses connaissances.\n      \n      Voici le contenu de la note sur laquelle l'étudiant travaille actuellement :\n      ---\n      "
  const SystemTail := "\n      ---\n      \n      Réponds aux questions de l'étudiant en te basant sur ce contenu si pertinent.\n      Sois encourageant, clair et pédagogique. Si tu ne sais pas, dis-le.\n      N'invente pas d'informations si elles ne sont pas dans le contexte, sauf si c'est une question de culture générale."

  /** The system message; an empty note is replaced by a fixed notice. */
  function SystemMessage(noteContent: string): (m: Message)
    ensures m.role == "system"
    ensures noteContent != "" ==> Contains(m.content, noteContent)
    ensures noteContent == "" ==> Contains(m.content, NoNoteContent)
  {
    var shown := if noteContent != "" then noteContent else NoNoteContent;
    InterpolateContains([SystemHead, SystemTail], [shown], 0);
    Message("system", Interpolate([SystemHead, SystemTail], [shown]))
  }

  /** `[systemMessage, ...messages]`. */
  function FullMessages(noteContent: string, messages: seq<Message>): (full: seq<Message>)
    ensures |full| == |messages| + 1
    ensures full[0] == SystemMessage(noteContent) && full[0].role == "system"
    ensures forall i :: 0 <= i < |messages| ==> full[i + 1] == messages[i]
  {
    [SystemMessage(noteContent)] + messages
  }

  /** The options the route passes to the dispatcher (its temperature, 0.7, is not modelled). */
  function ChatOptions(noteContent: string, messages: seq<Message>): AiClient.Options {
    AiClient.Options(FullMessages(noteContent, messages), None, false)
  }

  /** `POST`: `apiKey` is the dispatcher's credential ("" when absent). */
  function Post(userId: string, body: Body, apiKey: string, provider: Request -> Reply): (ex: Exchange<Answer>)
    ensures userId == "" ==> ex == Exchange(ErrorJson(401, Unauthorized), [])
    ensures userId != "" && body.messages.None? ==> ex == Exchange(ErrorJson(400, MessagesRequired), [])
    ensures userId != "" && body.messages.Some? ==>
      var run := AiClient.GenerateAIResponse(apiKey, ChatOptions(body.noteContent, body.messages.value), provider);
      && ex.calls == run.calls
      && (run.result.Success? ==> ex.response == Json(Answer(run.result.value)))
      && (run.result.Failure? ==> ex.response == ErrorJson(500, AiClient.ErrorMessage(run.result.error)))
    ensures forall i :: 0 <= i < |ex.calls| ==>
      |ex.calls[i].messages| == |body.messages.value| + 1
      && ex.calls[i].messages[0].role == "system"
      && ex.calls[i].messages[1..] == body.messages.value
  {
    if userId == "" then Exchange(ErrorJson(401, Unauthorized), [])
    else match body.messages
      case None => Exchange(ErrorJson(400, MessagesRequired), [])
      case Some(messages) =>
        var opts := ChatOptions(body.noteContent, messages);
        var run := AiClient.GenerateAIResponse(apiKey, opts, provider);
        assert FullMessages(body.noteContent, messages)[1..] == messages;
        match run.result
        case Success(content) => Exchange(Json(Answer(content)), run.calls)
        case Failure(e) => Exchange(ErrorJson(500, AiClient.ErrorMessage(e)), run.calls)
  }
}
