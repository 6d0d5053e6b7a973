/**
 * `POST /api/quiz/generate`: builds a quiz from every note of one subject.
 * It asks one fixed model directly (not through the dispatcher), keeps the
 * greedy span from the first `{` to the last `}` of the answer, parses it
 * and stores the object's `questions` as they are.
 */
module QuizRoute {
  import opened Common
  import opened Text
  import opened Provider
  import opened Http

  datatype Subject = Subject(name: string)

  /** A note as the query returns it, with its subject included. */
  datatype Note = Note(title: string, content: string, subject: Subject)

  /** The request body; an absent field is the empty string (the code only checks truthiness). */
  datatype Body = Body(subjectId: string, title: string, description: string)

  /**
   * What `JSON.parse(span)` yields: a syntax error, or an object whose
   * `questions` property may be absent. `Q` is the questions payload, kept
   * abstract because nothing in the route inspects it.
   */
  datatype ParsedObject<Q> = SyntaxError | Object(questions: Option<Q>)

  /** The quiz handed to storage. */
  datatype Quiz<Q> = Quiz(
    title: string,
    description: string,
    questions: Option<Q>,
    timeLimit: nat,
    userId: string,
    subjectId: string)

  const QuizModel := "meta-llama/llama-3.1-8b-instruct:free"
  const TimeLimitSeconds := 300

  const SubjectIdRequired := "ID de matière requis"
  const NoNotes := "Aucune note trouvée pour cette matière"
  const ParseFailed := "Erreur lors du parsing du quiz généré"
  const GenerationFailed := "Erreur lors de la génération du quiz"

  /** One note in the prompt: its title, a newline, its content. */
  function RenderNote(n: Note): string {
    n.title + "\n" + n.content
  }

  /** `notes.map(...).join("\n\n")`. */
  function CombineNotes(notes: seq<Note>): (r: string)
    ensures notes == [] ==> r == ""
    ensures forall i :: 0 <= i < |notes| ==> Contains(r, RenderNote(notes[i]))
  {
    var parts := seq(|notes|, i requires 0 <= i < |notes| => RenderNote(notes[i]));
    JoinContainsAll(parts, "\n\n");
    assert forall i :: 0 <= i < |notes| ==> parts[i] == RenderNote(notes[i]);
    Join(parts, "\n\n")
  }

  /** A single note is rendered alone, with no separator. */
  lemma CombineOneNote(n: Note)
    ensures CombineNotes([n]) == n.title + "\n" + n.content
  {
  }

  /** Combining keeps query order: the notes of `a` come first, then a blank line, then those of `b`. */
  lemma CombineNotesAppend(a: seq<Note>, b: seq<Note>)
    requires |a| > 0 && |b| > 0
    ensures CombineNotes(a + b) == CombineNotes(a) + "\n\n" + CombineNotes(b)
  {
    var ra := seq(|a|, i requires 0 <= i < |a| => RenderNote(a[i]));
    var rb := seq(|b|, i requires 0 <= i < |b| => RenderNote(b[i]));
    assert seq(|a + b|, i requires 0 <= i < |a + b| => RenderNote((a + b)[i])) == ra + rb;
    JoinAppend(ra, rb, "\n\n");
  }

  const PromptHead := "Créez un quiz de 10 questions à choix multiples basé sur les notes suivantes sur "
  const PromptMiddle := ".\n    Retournez UNIQUEMENT un JSON valide avec cette structure exacte:\n    {\n      \"questions\": [\n        {\n          \"question\": \"Question ici\",\n          \"options\": [\"Option A\", \"Option B\", \"Option C\", \"Option D\"],\n          \"correct\": 0\n        }\n      ]\n    }\n    \n    Notes: "

  /** The prompt: the subject name and the combined notes are interpolated into a fixed instruction. */
  function QuizPrompt(subjectName: string, combinedNotes: string): (prompt: string)
    ensures Contains(prompt, subjectName) && Contains(prompt, combinedNotes)
  {
    var lits := [PromptHead, PromptMiddle, ""];
    var holes := [subjectName, combinedNotes];
    InterpolateContains(lits, holes, 0);
    InterpolateContains(lits, holes, 1);
    Interpolate(lits, holes)
  }

  /**
   * `content.match(/\{[\s\S]*\}/)`: the leftmost match starts at the first
   * `{` and, being greedy, ends at the last `}`; there is no match when no
   * `}` follows the first `{`.
   */
  function BraceSpan(s: string): (r: Option<string>)
    ensures r.Some? <==> exists i, j :: 0 <= i < j < |s| && s[i] == '{' && s[j] == '}'
    ensures r.Some? ==> |r.value| >= 2 && r.value[0] == '{' && r.value[|r.value| - 1] == '}'
    ensures r.Some? ==> exists i: nat ::
      i <= |s| && OccursAt(s, r.value, i) && '{' !in s[..i] && '}' !in s[i + |r.value|..]
  {
    if '{' !in s || '}' !in s then None
    else
      var f := FirstIndexOf(s, '{');
      var l := LastIndexOf(s, '}');
      if f < l then
        assert OccursAt(s, s[f..l + 1], f);
        Some(s[f..l + 1])
      else
        forall i | 0 <= i < f
          ensures s[i] != '{'
        {
          assert s[i] == s[..f][i];
        }
        forall j | l < j < |s|
          ensures s[j] != '}'
        {
          assert s[j] == s[l + 1..][j - l - 1];
        }
        None
  }

  /** `title || \`Quiz ${subjectName} - ${date}\``. */
  function QuizTitle(title: string, subjectName: string, today: string): (r: string)
    ensures r != ""
    ensures title != "" ==> r == title
  {
    if title != "" then title else "Quiz " + subjectName + " - " + today
  }

  /** `description || \`Quiz généré automatiquement ...\``. */
  function QuizDescription(description: string, subjectName: string): (r: string)
    ensures r != ""
    ensures description != "" ==> r == description
  {
    if description != "" then description
    else "Quiz généré automatiquement à partir des notes de " + subjectName
  }

  /**
   * `POST`. `userId` is the session's user id ("" without a session),
   * `notesFor` the notes query, `provider` the completion endpoint, `parse`
   * the JSON parser and `today` the French-formatted current date.
   */
  function Post<Q>(
    userId: string,
    body: Body,
    notesFor: (string, string) -> seq<Note>,
    provider: Request -> Reply,
    parse: string -> ParsedObject<Q>,
    today: string): (ex: Exchange<Quiz<Q>>)
    ensures userId == "" ==> ex == Exchange(ErrorJson(401, Unauthorized), [])
    ensures userId != "" && body.subjectId == "" ==> ex == Exchange(ErrorJson(400, SubjectIdRequired), [])
    ensures userId != "" && body.subjectId != "" && |notesFor(userId, body.subjectId)| == 0 ==>
      ex == Exchange(ErrorJson(400, NoNotes), [])
    ensures |ex.calls| <= 1
    ensures userId != "" && body.subjectId != "" && |notesFor(userId, body.subjectId)| > 0 ==> |ex.calls| == 1
    ensures |ex.calls| == 1 ==>
      var notes := notesFor(userId, body.subjectId);
      |notes| > 0
      && ex.calls[0].model == QuizModel && ex.calls[0].maxTokens == 2000 && !ex.calls[0].jsonObjectFormat
      && |ex.calls[0].messages| == 1 && ex.calls[0].messages[0].role == "user"
      && Contains(ex.calls[0].messages[0].content, CombineNotes(notes))
      && Contains(ex.calls[0].messages[0].content, notes[0].subject.name)
    ensures |ex.calls| == 1 && UsableContent(provider(ex.calls[0])).None? ==>
      ex.response == ErrorJson(500, GenerationFailed)
    ensures |ex.calls| == 1 && UsableContent(provider(ex.calls[0])).Some? ==>
      var content := UsableContent(provider(ex.calls[0])).value;
      match BraceSpan(content)
      case None => ex.response == ErrorJson(500, ParseFailed)
      case Some(span) =>
        match parse(span)
        case SyntaxError => ex.response == ErrorJson(500, ParseFailed)
        case Object(questions) =>
          ex.response.Json? && ex.response.body.questions == questions
    ensures ex.response.Json? ==>
      var quiz := ex.response.body;
      |ex.calls| == 1
      && quiz.timeLimit == TimeLimitSeconds && quiz.userId == userId && quiz.subjectId == body.subjectId
      && quiz.title != "" && (body.title != "" ==> quiz.title == body.title)
      && quiz.description != "" && (body.description != "" ==> quiz.description == body.description)
  {
    if userId == "" then Exchange(ErrorJson(401, Unauthorized), [])
    else if body.subjectId == "" then Exchange(ErrorJson(400, SubjectIdRequired), [])
    else
      var notes := notesFor(userId, body.subjectId);
      if |notes| == 0 then Exchange(ErrorJson(400, NoNotes), [])
      else
        var subjectName := notes[0].subject.name;
        var prompt := QuizPrompt(subjectName, CombineNotes(notes));
        var req := Request(QuizModel, UserPrompt(prompt), 2000, false);
        match UsableContent(provider(req))
        case None => Exchange(ErrorJson(500, GenerationFailed), [req])
        case Some(content) =>
          match BraceSpan(content)
          case None => Exchange(ErrorJson(500, ParseFailed), [req])
          case Some(span) =>
            match parse(span)
            case SyntaxError => Exchange(ErrorJson(500, ParseFailed), [req])
            case Object(questions) =>
              var quiz := Quiz(
                QuizTitle(body.title, subjectName, today),
                QuizDescription(body.description, subjectName),
                questions, TimeLimitSeconds, userId, body.subjectId);
              Exchange(Json(quiz), [req])
  }
}
