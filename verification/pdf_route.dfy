/**
 * `POST /api/pdf/analyze`: analyses an uploaded PDF. The upload is checked
 * (present, a PDF, at most 10 MiB), its text is extracted and checked for
 * length, the first 6000 characters go into a prompt chosen by the analysis
 * type, and the provider's answer is returned trimmed.
 */
module PdfRoute {
  import opened Common
  import opened Text
  import opened Provider
  import opened Http

  /** The uploaded `File`: MIME type, size in bytes, file name. */
  datatype PdfFile = PdfFile(mimeType: string, size: nat, name: string)

  /** The form fields; a missing `analysisType` or `title` is the empty string (the code only checks truthiness). */
  datatype Form = Form(file: Option<PdfFile>, analysisType: string, title: string)

  datatype Analysis = Analysis(title: string, content: string, kind: string)

  /** `{ success: true, analysis, originalText }`. */
  datatype Analyzed = Analyzed(analysis: Analysis, originalText: string)

  const MaxFileSize := 10 * 1024 * 1024
  const MinTextLength := 50
  const AnalysisLimit := 6000
  const PreviewLimit := 500
  const PdfModel := "mistralai/mistral-small-3.2-24b-instruct:free"
  const PdfMaxTokens := 2500

  const FileAndTypeRequired := "Fichier et type d'analyse requis"
  const OnlyPdf := "Seuls les fichiers PDF sont acceptés"
  const TooLarge := "Le fichier est trop volumineux (max 10MB)"
  const ExtractionFailed := "Impossible d'extraire le texte du PDF. Assurez-vous que le PDF contient du texte."
  const NotEnoughText := "Le PDF ne contient pas assez de texte exploitable"
  const UnsupportedType := "Type d'analyse non supporté"
  const MissingKey := "Clé API OpenRouter manquante"
  const NoContent := "Aucun contenu généré par l'IA"
  const AnalysisFailed := "Erreur lors de l'analyse du PDF"

  const SummaryHead := "Tu es un assistant éducatif expert. Analyse ce contenu de cours et crée un résumé structuré et détaillé en français.\n\nInstructions:\n- Utilise le format Markdown pour structurer le contenu\n- Organise avec des titres (##) et sous-titres (###)\n- Mets en évidence les concepts clés avec **gras**\n- Utilise des listes à puces pour les points importants\n- Garde un style académique mais accessible\n\nContenu à analyser:\n"
  const SummaryTail := "\n\nRéponds uniquement avec le résumé structuré."
  const MindmapHead := "Tu es un assistant éducatif expert. Analyse ce contenu de cours et crée une carte mentale textuelle en français.\n\nInstructions:\n- Utilise une structure hiérarchique claire\n- Format: \n  # Concept Principal\n  ## Sous-concept 1\n  - Point important\n  - Détail\n  ## Sous-concept 2\n  - Point important\n- Identifie les relations entre concepts\n- Maximum 4 niveaux de hiérarchie\n\nContenu à analyser:\n"
  const MindmapTail := "\n\nRéponds uniquement avec la carte mentale."
  const FlashcardsHead := "Tu es un assistant éducatif expert. Analyse ce contenu de cours et crée des fiches de révision en français.\n\nInstructions:\n- Crée 8-12 fiches couvrant les concepts principaux\n- Format exact:\n  ## Fiche 1: [Titre du concept]\n  **Question**: [Question claire]\n  **Réponse**: [Réponse détaillée]\n  \n  ## Fiche 2: [Titre du concept]\n  **Question**: [Question claire]\n  **Réponse**: [Réponse détaillée]\n- Varie les types de questions (définitions, exemples, applications)\n\nContenu à analyser:\n"
  const FlashcardsTail := "\n\nRéponds uniquement avec les fiches de révision."
  const KeyPointsHead := "Tu es un assistant éducatif expert. Analyse ce contenu de cours et extrais les points essentiels en français.\n\nInstructions:\n- Utilise ce format exact:\n  # Points Essentiels\n  \n  ## 🎯 Concepts Clés\n  - **[Concept]**: [Explication courte]\n  \n  ## 📚 Définitions Importantes\n  - **[Terme]**: [Définition]\n  \n  ## 💡 Points à Retenir\n  - [Point important]\n  \n  ## 📋 Formules/Méthodes (si applicable)\n  - [Formule ou méthode]\n- Sois concis mais complet\n\nContenu à analyser:\n"
  const KeyPointsTail := "\n\nRéponds uniquement avec les points essentiels."

  /** One supported analysis: its prompt template and the prefix of its title. */
  datatype Kind = Kind(head: string, tail: string, titlePrefix: string)

  /** The `switch (analysisType)`. */
  function KindOf(analysisType: string): (k: Option<Kind>)
    ensures k.Some? <==>
      analysisType in ["summary", "mindmap", "flashcards", "key_points"]
    ensures analysisType == "summary" ==> k.value.titlePrefix == "Résumé"
    ensures analysisType == "mindmap" ==> k.value.titlePrefix == "Carte Mentale"
    ensures analysisType == "flashcards" ==> k.value.titlePrefix == "Fiches de Révision"
    ensures analysisType == "key_points" ==> k.value.titlePrefix == "Points Essentiels"
  {
    if analysisType == "summary" then Some(Kind(SummaryHead, SummaryTail, "Résumé"))
    else if analysisType == "mindmap" then Some(Kind(MindmapHead, MindmapTail, "Carte Mentale"))
    else if analysisType == "flashcards" then Some(Kind(FlashcardsHead, FlashcardsTail, "Fiches de Révision"))
    else if analysisType == "key_points" then Some(Kind(KeyPointsHead, KeyPointsTail, "Points Essentiels"))
    else None
  }

  /** `${prefix} - ${title || file.name.replace('.pdf', '')}`. */
  function AnalysisTitle(prefix: string, title: string, fileName: string): (r: string)
    ensures StartsWith(r, prefix + " - ")
    ensures title != "" ==> r[|prefix + " - "|..] == title
    ensures title == "" ==> r[|prefix + " - "|..] == ReplaceFirst(fileName, ".pdf", "")
  {
    prefix + " - " + (if title != "" then title else ReplaceFirst(fileName, ".pdf", ""))
  }

  /** The upload checks, in order; `None` when the upload is accepted. */
  function CheckUpload(form: Form): (r: Option<string>)
    ensures r.None? <==>
      form.file.Some? && form.analysisType != ""
      && form.file.value.mimeType == "application/pdf" && form.file.value.size <= MaxFileSize
    ensures form.file.None? || form.analysisType == "" ==> r == Some(FileAndTypeRequired)
    ensures form.file.Some? && form.analysisType != "" && form.file.value.mimeType != "application/pdf" ==>
      r == Some(OnlyPdf)
    ensures var f := form.file;
      f.Some? && form.analysisType != "" && f.value.mimeType == "application/pdf" && f.value.size > MaxFileSize ==>
        r == Some(TooLarge)
  {
    match form.file
    case None => Some(FileAndTypeRequired)
    case Some(file) =>
      if form.analysisType == "" then Some(FileAndTypeRequired)
      else if file.mimeType != "application/pdf" then Some(OnlyPdf)
      else if file.size > MaxFileSize then Some(TooLarge)
      else None
  }

  /** The error message the catch-all reports: `error.message || ...`. */
  function CaughtMessage(e: JsError): (r: string)
    ensures r != ""
    ensures e.message != "" ==> r == e.message
  {
    if e.message != "" then e.message else AnalysisFailed
  }

  /** What the route makes of the provider's reply: the generated text or the 500 message. */
  function ReadReply(reply: Reply): (r: Result<string, string>)
    ensures r.Success? <==>
      reply.Response? && IsOk(reply.status) && reply.body.Parsed?
      && FirstContent(reply.body).Some? && FirstContent(reply.body).value != ""
    ensures r.Success? ==> r.value == FirstContent(reply.body).value
    ensures reply.Response? && !IsOk(reply.status) ==>
      r == Failure("Erreur OpenRouter: " + NatToString(reply.status) + " - " + reply.text)
  {
    match reply
    case NetworkError(e) => Failure(CaughtMessage(e))
    case Response(status, text, body) =>
      if !IsOk(status) then Failure("Erreur OpenRouter: " + NatToString(status) + " - " + text)
      else match body
        case Unparsable(e) => Failure(CaughtMessage(e))
        case Parsed(_) =>
          match FirstContent(body)
          case None => Failure(NoContent)
          case Some(c) => if c == "" then Failure(NoContent) else Success(c)
  }

  /** The request sent for one analysis: the prompt embeds the text to analyse. */
  function AnalysisRequest(kind: Kind, textToAnalyze: string): (req: Request)
    ensures req.model == PdfModel && req.maxTokens == PdfMaxTokens && !req.jsonObjectFormat
    ensures |req.messages| == 1 && req.messages[0].role == "user"
    ensures Contains(req.messages[0].content, textToAnalyze)
  {
    InterpolateContains([kind.head, kind.tail], [textToAnalyze], 0);
    Request(PdfModel, UserPrompt(Interpolate([kind.head, kind.tail], [textToAnalyze])), PdfMaxTokens, false)
  }

  /** The provider call for a supported type and the shaping of its answer. */
  function Ask(kind: Kind, form: Form, file: PdfFile, textToAnalyze: string, provider: Request -> Reply)
    : (ex: Exchange<Analyzed>)
    ensures ex.calls == [AnalysisRequest(kind, textToAnalyze)]
    ensures ex.response.Json? <==> ReadReply(provider(ex.calls[0])).Success?
    ensures ex.response.ErrorJson? ==> ex.response == ErrorJson(500, ReadReply(provider(ex.calls[0])).error)
    ensures ex.response.Json? ==>
      && ex.response.body.analysis.content == Trim(ReadReply(provider(ex.calls[0])).value)
      && ex.response.body.analysis.kind == form.analysisType
      && ex.response.body.analysis.title == AnalysisTitle(kind.titlePrefix, form.title, file.name)
      && ex.response.body.originalText == Take(textToAnalyze, PreviewLimit) + "..."
  {
    var req := AnalysisRequest(kind, textToAnalyze);
    match ReadReply(provider(req))
    case Failure(msg) => Exchange(ErrorJson(500, msg), [req])
    case Success(content) =>
      var analysis := Analysis(AnalysisTitle(kind.titlePrefix, form.title, file.name), Trim(content), form.analysisType);
      Exchange(Json(Analyzed(analysis, Take(textToAnalyze, PreviewLimit) + "...")), [req])
  }

  /**
   * Everything after a successful extraction of `text` from `file`: the
   * length check, the type dispatch, the key check, then the provider call
   * on the first 6000 characters.
   */
  function Analyze(
    form: Form,
    file: PdfFile,
    text: string,
    apiKey: string,
    provider: Request -> Reply): (ex: Exchange<Analyzed>)
    ensures |Trim(text)| < MinTextLength ==> ex == Exchange(ErrorJson(400, NotEnoughText), [])
    ensures |Trim(text)| >= MinTextLength && KindOf(form.analysisType).None? ==>
      ex == Exchange(ErrorJson(400, UnsupportedType), [])
    ensures |Trim(text)| >= MinTextLength && KindOf(form.analysisType).Some? && apiKey == "" ==>
      ex == Exchange(ErrorJson(500, MissingKey), [])
    ensures |Trim(text)| >= MinTextLength && KindOf(form.analysisType).Some? && apiKey != "" ==>
      ex == Ask(KindOf(form.analysisType).value, form, file, Take(text, AnalysisLimit), provider)
  {
    if |Trim(text)| < MinTextLength then Exchange(ErrorJson(400, NotEnoughText), [])
    else
      match KindOf(form.analysisType)
      case None => Exchange(ErrorJson(400, UnsupportedType), [])
      case Some(kind) =>
        if apiKey == "" then Exchange(ErrorJson(500, MissingKey), [])
        else Ask(kind, form, file, Take(text, AnalysisLimit), provider)
  }

  /**
   * `POST`. `userId` is the session's user id ("" without a session),
   * `extract` stands for pdf-parse (`None` when it throws) and `apiKey` for
   * the provider credential ("" when absent).
   */
  function Post(
    userId: string,
    form: Form,
    extract: PdfFile -> Option<string>,
    apiKey: string,
    provider: Request -> Reply): (ex: Exchange<Analyzed>)
    ensures userId == "" ==> ex == Exchange(ErrorJson(401, Unauthorized), [])
    ensures userId != "" && CheckUpload(form).Some? ==> ex == Exchange(ErrorJson(400, CheckUpload(form).value), [])
    ensures userId != "" && CheckUpload(form).None? && extract(form.file.value).None? ==>
      ex == Exchange(ErrorJson(400, ExtractionFailed), [])
    ensures userId != "" && CheckUpload(form).None? && extract(form.file.value).Some? ==>
      ex == Analyze(form, form.file.value, extract(form.file.value).value, apiKey, provider)
  {
    if userId == "" then Exchange(ErrorJson(401, Unauthorized), [])
    else match CheckUpload(form)
      case Some(msg) => Exchange(ErrorJson(400, msg), [])
      case None =>
        match extract(form.file.value)
        case None => Exchange(ErrorJson(400, ExtractionFailed), [])
        case Some(text) => Analyze(form, form.file.value, text, apiKey, provider)
  }

  /** The preview is the first 500 characters of the extracted text, whatever the analysis cut. */
  lemma PreviewOfAnalysedText(text: string)
    ensures Take(Take(text, AnalysisLimit), PreviewLimit) == Take(text, PreviewLimit)
  {
  }

  /** A file of exactly 10 MiB passes the size check; one byte more does not. */
  lemma SizeLimitBoundary(analysisType: string, title: string, name: string)
    requires analysisType != ""
    ensures CheckUpload(Form(Some(PdfFile("application/pdf", 10485760, name)), analysisType, title)).None?
    ensures CheckUpload(Form(Some(PdfFile("application/pdf", 10485761, name)), analysisType, title))
      == Some(TooLarge)
  {
  }
}
