/**
 * `POST /api/ai/generate`: turns notes into a summary, flashcards, a quiz or
 * a mind map. The kind selects a prompt; the provider is asked directly and
 * its text is returned unchanged, even for a quiz, which is not parsed here.
 */
module GenerateRoute {
  import opened Common
  import opened Text
  import opened Provider
  import opened Http

  /** The request body; an absent field is the empty string (the code only checks truthiness). */
  datatype Body = Body(notes: string, kind: string, subject: string)

  /** `{ content }`. */
  datatype Generated = Generated(content: string)

  const GenerateModel := "meta-llama/llama-3.1-8b-instruct:free"

  const NotesAndTypeRequired := "Notes et type requis"
  const UnsupportedType := "Type non supporté"
  const GenerationFailed := "Erreur lors de la génération du contenu"

  const SummaryHead := "Créez un résumé structuré et détaillé des notes suivantes sur "
  const SummaryMiddle := ". \n        Organisez le contenu avec des titres, sous-titres et points clés. \n        Utilisez le format Markdown pour la structure.\n        \n        Notes: "
  const FlashcardHead := "Créez des fiches de révision (flashcards) basées sur les notes suivantes sur "
  const FlashcardMiddle := ".\n        Format: ## Fiche X: [Titre]\n        **Question**: [Question claire]\n        **Réponse**: [Réponse détaillée]\n        \n        Créez au moins 5 fiches différentes couvrant les concepts principaux.\n        \n        Notes: "
  const QuizHead := "Créez un quiz de 10 questions à choix multiples basé sur les notes suivantes sur "
  const QuizMiddle := ".\n        Retournez UNIQUEMENT un JSON valide avec cette structure exacte:\n        {\n          \"questions\": [\n            {\n              \"question\": \"Question ici\",\n              \"options\": [\"Option A\", \"Option B\", \"Option C\", \"Option D\"],\n              \"correct\": 0\n            }\n          ]\n        }\n        \n        Notes: "
  const MindmapHead := "Créez une carte mentale textuelle structurée basée sur les notes suivantes sur "
  const MindmapMiddle := ".\n        Organisez les concepts principaux et leurs sous-concepts de manière hiérarchique.\n        Utilisez des tirets et indentations pour montrer la structure.\n        \n        Notes: "

  /** The kinds the `switch` accepts. */
  predicate IsSupported(kind: string) {
    kind == "summary" || kind == "flashcard" || kind == "quiz" || kind == "mindmap"
  }

  /** `subject || "le sujet"`. */
  function SubjectOrDefault(subject: string): (r: string)
    ensures r != ""
    ensures subject != "" ==> r == subject
  {
    if subject != "" then subject else "le sujet"
  }

  /** The fixed text around the two interpolated values for each supported kind. */
  function Template(kind: string): (r: Option<(string, string)>)
    ensures r.Some? <==> IsSupported(kind)
  {
    if kind == "summary" then Some((SummaryHead, SummaryMiddle))
    else if kind == "flashcard" then Some((FlashcardHead, FlashcardMiddle))
    else if kind == "quiz" then Some((QuizHead, QuizMiddle))
    else if kind == "mindmap" then Some((MindmapHead, MindmapMiddle))
    else None
  }

  /** The `switch (type)`: a prompt for a supported kind, nothing otherwise. */
  function PromptFor(kind: string, subject: string, notes: string): (r: Option<string>)
    ensures r.Some? <==> IsSupported(kind)
    ensures r.Some? ==> Contains(r.value, notes) && Contains(r.value, SubjectOrDefault(subject))
  {
    match Template(kind)
    case None => None
    case Some((head, middle)) =>
      var lits := [head, middle, ""];
      var holes := [SubjectOrDefault(subject), notes];
      InterpolateContains(lits, holes, 0);
      InterpolateContains(lits, holes, 1);
      Some(Interpolate(lits, holes))
  }

  /** `POST`: `userId` is the session's user id ("" without a session). */
  function Post(userId: string, body: Body, provider: Request -> Reply): (ex: Exchange<Generated>)
    ensures userId == "" ==> ex == Exchange(ErrorJson(401, Unauthorized), [])
    ensures userId != "" && (body.notes == "" || body.kind == "") ==>
      ex == Exchange(ErrorJson(400, NotesAndTypeRequired), [])
    ensures userId != "" && body.notes != "" && body.kind != "" && !IsSupported(body.kind) ==>
      ex == Exchange(ErrorJson(400, UnsupportedType), [])
    ensures |ex.calls| <= 1
    ensures userId != "" && body.notes != "" && IsSupported(body.kind) ==> |ex.calls| == 1
    ensures |ex.calls| == 1 ==>
      IsSupported(body.kind)
      && ex.calls[0].model == GenerateModel && ex.calls[0].maxTokens == 2000 && !ex.calls[0].jsonObjectFormat
      && |ex.calls[0].messages| == 1 && ex.calls[0].messages[0].role == "user"
      && Contains(ex.calls[0].messages[0].content, body.notes)
      && Contains(ex.calls[0].messages[0].content, SubjectOrDefault(body.subject))
    ensures ex.response.Json? <==> |ex.calls| == 1 && UsableContent(provider(ex.calls[0])).Some?
    ensures ex.response.Json? ==> ex.response.body.content == UsableContent(provider(ex.calls[0])).value
    ensures |ex.calls| == 1 && UsableContent(provider(ex.calls[0])).None? ==>
      ex.response == ErrorJson(500, GenerationFailed)
  {
    if userId == "" then Exchange(ErrorJson(401, Unauthorized), [])
    else if body.notes == "" || body.kind == "" then Exchange(ErrorJson(400, NotesAndTypeRequired), [])
    else match PromptFor(body.kind, body.subject, body.notes)
      case None => Exchange(ErrorJson(400, UnsupportedType), [])
      case Some(prompt) =>
        var req := Request(GenerateModel, UserPrompt(prompt), 2000, false);
        match UsableContent(provider(req))
        case None => Exchange(ErrorJson(500, GenerationFailed), [req])
        case Some(content) => Exchange(Json(Generated(content)), [req])
  }
}
