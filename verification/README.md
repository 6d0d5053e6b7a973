# SamaNote core, modelled in Dafny

SamaNote is a study-notes web application. Its server routes ask a hosted
language model to generate quizzes, summaries, flashcards, mind maps and key
points from a student's notes, and its client components parse the model's
markdown answers into structures. This project models the sequential logic
at the heart of it, as pure functions over immutable data, and proves what
that logic promises:

- **Completion dispatcher** (`AiClient`). It tries a fixed list of four free
  models in order. The first usable answer wins and later models are never
  asked. A missing key fails before any attempt. When every model fails, the
  error names the last failure. The provider is a function from request to
  reply (`Provider`), and every run records the requests it sent.
- **Routes** (`QuizRoute`, `GenerateRoute`, `ChatRoute`, `AudioRoute`,
  `PdfRoute`). For each route the model covers:
  - the order of its checks, which decides the error code;
  - how it assembles the prompt;
  - its truncation bounds: 3000, 4096, 6000 and 500 characters;
  - its defaults;
  - for the quiz route, the greedy `{…}` extraction followed by `.questions`.
- **Markdown parsers**:
  - `MindMap`: the mind-map tree builder;
  - `Flashcards`: the flashcard scanner, with a layout function and the
    round-trip theorem `Parse(Format(cards)) == cards`;
  - `KeyPoints`: the key-points classifier;
  - `Summary`: the seven-step regular-expression markdown-to-HTML rewrite.
- **Small state machines**:
  - `Middleware`: the middleware's redirect decision;
  - `Sidebar`: the sidebar's active link;
  - `NoteForm`: the new-note form's tag list and submit condition;
  - `AudioPlayer`: the audio player;
  - `Flashcards`: the flashcard viewer's cyclic navigation.

Shared modules:

- `Common` holds `Option` and `Result`.
- `Text` holds the JavaScript string operations the code uses: `trim`,
  `startsWith`, `includes`, `indexOf`, `substring`, `split`, `join` and
  `replace` of a first occurrence.
- `Http` holds the JSON responses with their status codes.

Strings are sequences of characters. A field the code only tests for
truthiness is modelled as a string where `""` stands for absent.

The quiz route extracts exactly one greedy `{…}` span and stores its
`questions` property as it is. It makes no further recovery attempt and does
not check that a question has four options, so per-question validation
appears nowhere in the model.

## Model

| member | source | states |
|---|---|---|
| AiClient.EffectiveMaxTokens | lib/ai-client.ts:42 | `max_tokens \|\| 2000`: an absent or zero bound becomes 2000, and any other given value is kept as it is |
| AiClient.RequestFor | lib/ai-client.ts:38-44 | the body carries the candidate model, the messages unchanged, a non-zero bound that is the given one unless absent or zero (then 2000), and the JSON format exactly in JSON mode |
| AiClient.Attempt | lib/ai-client.ts:47-59 | one candidate succeeds iff the reply is ok and `choices` is non-empty with a `message`, and its content is then returned unchecked (possibly absent); a non-ok status fails with `Status <n>`, a transport error with its own error, a message-less body with the format error |
| AiClient.Sweep | lib/ai-client.ts:24-65 | the candidates are asked strictly in list order, between one and all of them; every candidate before the last one asked failed; the run succeeds iff the last one asked succeeded, and otherwise carries that candidate's error |
| AiClient.GenerateAIResponse | lib/ai-client.ts:17-68 | a missing key fails with no request sent; otherwise one to four requests go out, the i-th to the i-th free model, each with the effective token bound and the JSON format only in JSON mode |
| AiClient.FirstSuccessWins | lib/ai-client.ts:26-59 | if candidate k is the first that answers, the result is its content and exactly k+1 requests were sent, so no later candidate is asked |
| AiClient.AllCandidatesFail | lib/ai-client.ts:60-67 | when no candidate answers, all four are asked and the failure carries the fourth one's error |
| AiClient.SucceedsIffSomeCandidate | lib/ai-client.ts:17-68 | the call succeeds exactly when the key is present and some candidate answers |
| AiClient.ErrorMessage | lib/ai-client.ts:67 | the final error message embeds `${lastError}`, the last candidate's error as `Error.prototype.toString` prints it |
| Provider.ErrorToString | lib/ai-client.ts:67 | `${error}` prints `name: message`, or just the part that is non-empty |
| Provider.FirstContent | app/api/pdf/analyze/route.ts:201 | `choices?.[0]?.message?.content` is present iff the body parsed, `choices` is non-empty, and the first choice has a message with content |
| Provider.UsableContent | app/api/ai/generate/route.ts:90-99 | a route keeps the content iff the reply is ok and the first choice's content is present and non-empty |
| QuizRoute.CombineOneNote | app/api/quiz/generate/route.ts:36 | a single note is rendered as its title, a newline and its content, with no separator |
| QuizRoute.CombineNotes | app/api/quiz/generate/route.ts:36 | no notes give the empty text, and every note's title-newline-content rendering occurs in the combined text |
| QuizRoute.CombineNotesAppend | app/api/quiz/generate/route.ts:36 | joining keeps query order: the notes of the first part, a blank line, then those of the second |
| QuizRoute.QuizPrompt | app/api/quiz/generate/route.ts:40-52 | the prompt contains the subject name and the combined notes verbatim |
| QuizRoute.BraceSpan | app/api/quiz/generate/route.ts:88 | a span exists iff some `}` follows a `{`; it then starts at the first `{` and ends at the last `}` of the content |
| QuizRoute.QuizTitle | app/api/quiz/generate/route.ts:102 | the title is never empty and a given title is kept |
| QuizRoute.QuizDescription | app/api/quiz/generate/route.ts:103 | the description is never empty and a given description is kept |
| QuizRoute.Post | app/api/quiz/generate/route.ts:6-119 | no session gives 401, a missing subject gives 400, and a subject without notes gives 400, all with no request sent; once these pass, exactly one request is sent, carrying the combined notes and the subject name; an unusable reply gives 500; a missing span or unparsable span gives 500; otherwise the stored questions are the parsed `questions` as they are, `timeLimit` is 300, and the title and description default only when empty |
| GenerateRoute.SubjectOrDefault | app/api/ai/generate/route.ts:23 | `subject \|\| "le sujet"` is never empty and keeps a given subject |
| GenerateRoute.Template | app/api/ai/generate/route.ts:21-67 | a prompt template exists exactly for `summary`, `flashcard`, `quiz` and `mindmap` |
| GenerateRoute.PromptFor | app/api/ai/generate/route.ts:21-63 | for a supported type the prompt contains the notes verbatim and the subject or its default; an unsupported type has no prompt |
| GenerateRoute.Post | app/api/ai/generate/route.ts:5-106 | 401 without a session, 400 without notes or type, and 400 for an unsupported type, all before any request; for a supported type with notes, exactly one request is sent, carrying the notes and the subject or `le sujet`; success iff the one request's reply is usable, and the content is then returned unchanged; otherwise 500 |
| ChatRoute.SystemMessage | app/api/ai/chat/route.ts:21-34 | the system message has role `system` and embeds the note content, or the fixed notice when there is none |
| ChatRoute.FullMessages | app/api/ai/chat/route.ts:36 | one more message than given: the system message first, then the given messages in order |
| ChatRoute.Post | app/api/ai/chat/route.ts:6-48 | 401 without a session and 400 without a messages array, with no request; otherwise the dispatcher's requests are the ones sent, its content is returned unchanged, and its error becomes a 500 carrying its message; every request holds the system message followed by the user's messages |
| AudioRoute.RewriteOptions | app/api/audio/generate/route.ts:86-99 | the rewrite request holds one user message made of the instruction and the first 3000 characters of the text |
| AudioRoute.RewriteText | app/api/audio/generate/route.ts:84-136 | a non-empty answer replaces the text; a failed call, an absent answer or an empty answer gives back the original full text |
| AudioRoute.Post | app/api/audio/generate/route.ts:7-82 | 401 without a session, 400 without text; otherwise always a JSON answer with the requested or default voice; `enhanced` (the default) and `ssml` rewrite the text and send exactly the rewrite's requests; any other method returns the first 4096 characters with no request; every request holds the first 3000 characters |
| AudioRoute.CacheLookupIrrelevant | app/api/audio/generate/route.ts:21-34 | what the cache lookup finds never changes the response |
| AudioRoute.RewriteFallsBackToOriginal | app/api/audio/generate/route.ts:101-105 | without a key the dispatcher throws and the original text is returned, with no request sent |
| PdfRoute.KindOf | app/api/pdf/analyze/route.ts:70-161 | exactly `summary`, `mindmap`, `flashcards` and `key_points` are supported, each with its fixed title prefix |
| PdfRoute.AnalysisTitle | app/api/pdf/analyze/route.ts:85 | the title is the prefix, then ` - `, then the given title or else the file name with its first `.pdf` removed |
| PdfRoute.CheckUpload | app/api/pdf/analyze/route.ts:20-32 | an upload passes iff a file and a type are given, the type is `application/pdf` and the size is at most 10 MiB; the missing-field error comes first, then the non-PDF error, then the too-large error |
| PdfRoute.CaughtMessage | app/api/pdf/analyze/route.ts:223 | `error.message \|\| default` is never empty and keeps a non-empty message |
| PdfRoute.ReadReply | app/api/pdf/analyze/route.ts:192-206 | the reply is read iff it is ok, parsed, and has non-empty content, which is returned; a non-ok status gives `Erreur OpenRouter: <status> - <body text>` |
| PdfRoute.AnalysisRequest | app/api/pdf/analyze/route.ts:170-190 | one user message holding the text to analyse, sent to the fixed model with a 2500-token bound |
| PdfRoute.Ask | app/api/pdf/analyze/route.ts:168-217 | exactly one request; success iff its reply is read; the content is then trimmed and the preview is the first 500 characters followed by `...`; a failure gives 500 with the thrown message |
| PdfRoute.Analyze | app/api/pdf/analyze/route.ts:56-166 | under 50 trimmed characters gives 400; an unsupported type gives 400; a missing key gives 500; all of these come before any request, in this order; otherwise the first 6000 characters are analysed |
| PdfRoute.Post | app/api/pdf/analyze/route.ts:7-229 | 401 without a session, then the upload checks, then the extraction failure, each before any request |
| PdfRoute.PreviewOfAnalysedText | app/api/pdf/analyze/route.ts:64 | the 500-character preview of the 6000-character text is the first 500 characters of the extracted text |
| PdfRoute.SizeLimitBoundary | app/api/pdf/analyze/route.ts:30 | a file of exactly 10 MiB is accepted and one byte more is refused |
| MindMap.AddToLast | components/analysis-renderers/mindmap-renderer.tsx:53-57 | pushing onto the current node changes only the last node, which gains the child at its end |
| MindMap.AddLeafKeepsDepth | components/analysis-renderers/mindmap-renderer.tsx:51-57 | adding a detail leaf never makes a node deeper than its bound |
| MindMap.AddShallowKeepsDepth | components/analysis-renderers/mindmap-renderer.tsx:45-47 | adding a node at most one deep under a node at most two deep keeps it at most two deep |
| MindMap.OpenSection | components/analysis-renderers/mindmap-renderer.tsx:36-41 | a `## ` line appends `Node(name, [])` as the last root child and closes any level-2 node |
| MindMap.OpenSubsection | components/analysis-renderers/mindmap-renderer.tsx:42-48 | a `### ` line appends `Node(name, [])` to the children of the last level-1 node, changes no other node, and opens level 2 |
| MindMap.AddDetailToSubsection | components/analysis-renderers/mindmap-renderer.tsx:52-54 | with a level-2 node open, the detail leaf is appended to the children of the last child of the last level-1 node; every other node is unchanged |
| MindMap.AddDetailToSection | components/analysis-renderers/mindmap-renderer.tsx:55-57 | with no level-2 node open, the detail leaf is appended to the children of the last level-1 node; every other node is unchanged |
| MindMap.MarkerOfPrefix | components/analysis-renderers/mindmap-renderer.tsx:33-49 | the marker tests follow the `startsWith` chain on the untrimmed line; a line starting with neither `#` nor `-` matches nothing |
| MindMap.Step | components/analysis-renderers/mindmap-renderer.tsx:32-60 | a `# ` line renames the root and changes nothing else; a `## ` line appends a root child and closes level 2; a `### ` line appends a level-2 node to the last section, or is dropped before any `## `; a `- ` line appends a leaf to the open level-2 node, else to the last section, else is dropped; other lines change nothing |
| MindMap.Build | components/analysis-renderers/mindmap-renderer.tsx:28-62 | the state stays well formed, so the tree is never more than three levels deep under the root |
| MindMap.NonBlankKeeps | components/analysis-renderers/mindmap-renderer.tsx:27 | the filter keeps exactly the lines whose trim is not empty |
| MindMap.Parse | components/analysis-renderers/mindmap-renderer.tsx:26-63 | the parsed tree is at most three levels deep below the root |
| MindMap.SectionsAreSecondLevelLines | components/analysis-renderers/mindmap-renderer.tsx:36-41 | the root's children are the `## ` lines, one each, in order, with trimmed names |
| MindMap.RootNameIsLastTitle | components/analysis-renderers/mindmap-renderer.tsx:28-35 | the root is named by the last `# ` line, or keeps `Concept Principal` |
| MindMap.BlankLineIsInert | components/analysis-renderers/mindmap-renderer.tsx:27-59 | a blank line would leave the state unchanged even if it were not filtered out |
| MindMap.BlankLinesAreInert | components/analysis-renderers/mindmap-renderer.tsx:27 | filtering out blank lines does not change the tree |
| MindMap.SectionCount | components/analysis-renderers/mindmap-renderer.tsx:36-41 | the number of root children equals the number of `## ` lines |
| MindMap.SectionChildren | components/analysis-renderers/mindmap-renderer.tsx:42-57 | reference reading of one section's body: `### ` adds a level-2 node, `- ` adds a leaf to the latest level-2 node or else to the section; a body with a `### ` line yields at least one child |
| MindMap.SectionIsLocal | components/analysis-renderers/mindmap-renderer.tsx:32-60 | a section's children are determined by the lines between its `## ` line and the next one alone, as `SectionChildren` reads them, and a level-2 node is open after them iff they contain a `### ` line |
| MindMap.DetailsUnderSection | components/analysis-renderers/mindmap-renderer.tsx:55-57 | before any `### ` line, each `- ` line becomes a leaf of the section itself, in line order |
| MindMap.SubsectionGroup | components/analysis-renderers/mindmap-renderer.tsx:42-54 | a `### ` line followed by `- ` lines becomes one level-2 node whose children are those details, in line order, after the section's earlier children |
| Flashcards.DigitRun | components/analysis-renderers/flashcards-renderer.tsx:25 | `\d+` takes the longest run of digits |
| Flashcards.HeaderEnd | components/analysis-renderers/flashcards-renderer.tsx:25 | a header match starts with `## Fiche ` and ends after at least one digit and `: ` |
| Flashcards.NextHeader | components/analysis-renderers/flashcards-renderer.tsx:25-28 | the scan resumes at the first header at or after the position, and no header lies before it |
| Flashcards.AnswerEnd | components/analysis-renderers/flashcards-renderer.tsx:25 | the lazy answer stops at the earliest `## Fiche`, `\n\n\n` or end of input |
| Flashcards.AnswerIsClean | components/analysis-renderers/flashcards-renderer.tsx:25 | an answer never contains the markers that end it |
| Flashcards.Match | components/analysis-renderers/flashcards-renderer.tsx:25-28 | a match, when there is one, lies within the text and consumes at least one character |
| Flashcards.Parse | components/analysis-renderers/flashcards-renderer.tsx:23-37 | the scan ends, producing at most one card per character |
| Flashcards.ParsedCardsAreClean | components/analysis-renderers/flashcards-renderer.tsx:29-33 | every card has trimmed title, question and answer, and an answer free of stop markers |
| Flashcards.Format | components/analysis-renderers/flashcards-renderer.tsx:25 | the layout is empty iff there are no cards, and otherwise starts with a `## Fiche` header |
| Flashcards.BlockRoundTrip | components/analysis-renderers/flashcards-renderer.tsx:25-34 | reading a laid-out card yields that card, then reads on from what follows it |
| Flashcards.FormatRoundTrip | components/analysis-renderers/flashcards-renderer.tsx:23-37 | laying readable cards out and scanning them back gives the same cards, in order |
| Flashcards.NoHeaderNoCards | components/analysis-renderers/flashcards-renderer.tsx:25 | text in which no position starts a `## Fiche <digits>: ` header yields no cards, even if it contains `## Fiche ` |
| Flashcards.Next | components/analysis-renderers/flashcards-renderer.tsx:44-47 | next stays in range and is `(i + 1) mod n`, so the last card wraps to the first |
| Flashcards.Previous | components/analysis-renderers/flashcards-renderer.tsx:39-42 | previous stays in range and is the card whose next is `i`, so the first wraps to the last |
| Flashcards.NextPreviousInverse | components/analysis-renderers/flashcards-renderer.tsx:39-47 | next then previous, and previous then next, return to the same card |
| Flashcards.MoveNext | components/analysis-renderers/flashcards-renderer.tsx:44-47 | moving shows the question side of the next card, `(i + 1) mod n`, so the last card wraps to the first |
| Flashcards.MovePrevious | components/analysis-renderers/flashcards-renderer.tsx:39-42 | moving shows the question side of the previous card, and the first card wraps to the last |
| Flashcards.Flip | components/analysis-renderers/flashcards-renderer.tsx:49-51 | flipping toggles the side and keeps the card |
| Flashcards.ViewerRoundTrips | components/analysis-renderers/flashcards-renderer.tsx:39-51 | flipping twice is the identity; next then previous returns to the card, showing its question |
| KeyPoints.Push | components/analysis-renderers/key-points-renderer.tsx:33 | an item is appended to the selected section only; the other three are unchanged |
| KeyPoints.KeywordOf | components/analysis-renderers/key-points-renderer.tsx:24-31 | a selected section's keyword occurs in the line |
| KeyPoints.KeywordPriority | components/analysis-renderers/key-points-renderer.tsx:24-31 | a line selects the highest-priority section whose keyword it contains, and none iff it contains no keyword |
| KeyPoints.Classify | components/analysis-renderers/key-points-renderer.tsx:24-33 | a keyword line is never an item; a line is an item iff it names no section and its trim starts with `- `, with the text after that prefix |
| KeyPoints.Step | components/analysis-renderers/key-points-renderer.tsx:23-34 | a keyword line selects its section and adds nothing; an item is appended to the selected section only when one is selected; an ignored line changes nothing |
| KeyPoints.Run | components/analysis-renderers/key-points-renderer.tsx:14-19 | there are always the four sections, with their fixed titles and emojis |
| KeyPoints.NoneSelected | components/analysis-renderers/key-points-renderer.tsx:21-31 | no section is selected iff no line names one |
| KeyPoints.SelectedByLastKeyword | components/analysis-renderers/key-points-renderer.tsx:24-31 | the last keyword line decides the selected section |
| KeyPoints.SelectedIsLastKeyword | components/analysis-renderers/key-points-renderer.tsx:24-31 | a selected section is named by the last keyword line |
| KeyPoints.NoKeywordNoItems | components/analysis-renderers/key-points-renderer.tsx:14-21 | without a keyword line all four sections stay empty |
| KeyPoints.DroppedBeforeKeyword | components/analysis-renderers/key-points-renderer.tsx:21-32 | lines before the first keyword line, bullets included, change nothing |
| KeyPoints.ItemsComeFromLines | components/analysis-renderers/key-points-renderer.tsx:32-33 | every item of every section comes from an item line |
| KeyPoints.ParsedItemsAreBullets | components/analysis-renderers/key-points-renderer.tsx:23-33 | every parsed item is the trimmed text of a bullet line naming no section, without its `- ` |
| KeyPoints.TotalItems | components/analysis-renderers/key-points-renderer.tsx:32-33 | the sections hold exactly the item lines that follow some keyword line: none lost, none doubled |
| KeyPoints.ItemsInOrder | components/analysis-renderers/key-points-renderer.tsx:21-35 | each section holds exactly the texts of the item lines whose latest keyword line above them names it, in input order, and the selected section is the one the last keyword line names |
| KeyPoints.ParseKeyPoints | components/analysis-renderers/key-points-renderer.tsx:13-38 | the four sections keep their titles and emojis, and each holds the bullets written below its title, in input order |
| Summary.LineEnd | components/analysis-renderers/summary-renderer.tsx:26 | `(.*$)` stops at the first line terminator |
| Summary.RewriteLine | components/analysis-renderers/summary-renderer.tsx:26-28 | a line starting with the prefix becomes open tag, rest of line, close tag; any other line is kept |
| Summary.LinesAreLocal | components/analysis-renderers/summary-renderer.tsx:26-31 | a multiline rewrite acts on each line separately and keeps the terminators |
| Summary.RewriteLinesUnchanged | components/analysis-renderers/summary-renderer.tsx:26-31 | text without the prefix's first character is not changed by a line rewrite |
| Summary.CloseAt | components/analysis-renderers/summary-renderer.tsx:29-30 | the lazy `(.*?)` closes at the first delimiter on the same line |
| Summary.DelimitedUnchanged | components/analysis-renderers/summary-renderer.tsx:29-30 | text without the delimiter's first character is not changed |
| Summary.DelimitedPair | components/analysis-renderers/summary-renderer.tsx:29-30 | a delimited run on one line becomes the tagged run |
| Summary.Breaks | components/analysis-renderers/summary-renderer.tsx:32 | a result that starts with a newline comes from an input that starts with a lone newline |
| Summary.NoDoubleNewline | components/analysis-renderers/summary-renderer.tsx:32 | after the break rewrite no `\n\n` is left |
| Summary.BreaksUnchanged | components/analysis-renderers/summary-renderer.tsx:32 | text without `\n\n` is not changed by the break rewrite |
| Summary.BreaksAppend | components/analysis-renderers/summary-renderer.tsx:32 | text that does not end in a newline is rewritten independently of what follows it |
| Summary.BreaksSplit | components/analysis-renderers/summary-renderer.tsx:32 | a `\n\n` that does not continue a newline becomes exactly one `<br/>`, with both sides rewritten on their own |
| Summary.MarkdownToHtml | components/analysis-renderers/summary-renderer.tsx:23-33 | the HTML never contains `\n\n` |
| Summary.PlainUnchanged | components/analysis-renderers/summary-renderer.tsx:25-32 | input without `#`, `*`, `-` or `\n\n` comes back unchanged, so `<` is not escaped |
| Summary.HeadingLine | components/analysis-renderers/summary-renderer.tsx:26-31 | a line without `*` is rewritten by its prefix: `# ` to h1, `## ` to h2 (never h1), `### ` to h3, `- ` to li |
| Summary.StrongBeforeEmphasis | components/analysis-renderers/summary-renderer.tsx:29-30 | `**x**` becomes `<strong>x</strong>`, not nested `<em>`, because bold is rewritten first |
| Middleware.Decide | middleware.ts:4-32 | redirect to login, with the path as `callbackUrl`, iff protected and no token; redirect home iff an auth page and a token; otherwise pass |
| Middleware.ProtectedIsNotAuth | middleware.ts:9-14 | no path is both protected and an auth page, so at most one redirect applies |
| Middleware.ProtectedByPrefix | middleware.ts:10 | every path that extends a protected route is protected, `/dashboardX` included |
| Middleware.AuthIsExact | middleware.ts:14 | both auth pages match exactly: `/auth/login` or `/auth/register` followed by anything more is not an auth page |
| Middleware.RedirectTargetsPass | middleware.ts:17-31 | the login page without a token and the home page pass through, so a redirect never loops |
| Middleware.IsProtected | middleware.ts:9-10 | a path is protected iff it starts with `/dashboard`, `/profile` or `/settings` |
| Middleware.IsAuthRoute | middleware.ts:13-14 | a path is an auth page iff it is exactly `/auth/login` or `/auth/register` |
| Sidebar.ActiveRoute | components/app-sidebar.tsx:14-46 | the active link, if any, is the only active one; there is none iff no link matches |
| Sidebar.AtMostOneActive | components/app-sidebar.tsx:19-43 | two links active on the same path are the same link |
| Sidebar.HomeOnlyAccueil | components/app-sidebar.tsx:19-43 | at `/` exactly Accueil is active |
| Sidebar.OwnHrefActive | components/app-sidebar.tsx:14-46 | following a link makes it active, IA Studio's `/ai/generate` included |
| Sidebar.PrefixActiveBelow | components/app-sidebar.tsx:25-43 | a path below a prefix link keeps it active |
| Sidebar.Active | components/app-sidebar.tsx:19-43 | Accueil is active iff the path is exactly `/`; Notes, Sujets, Quiz and IA Studio are active iff the path starts with `/notes`, `/subjects`, `/quiz` or `/ai` |
| NoteForm.AddTag | app/notes/new/page.tsx:54-59 | the trimmed input is appended iff it is not blank and not present, and the input is then cleared; a refused add changes nothing |
| NoteForm.Without | app/notes/new/page.tsx:61-63 | the removed tag is gone and the list does not grow |
| NoteForm.RemoveTag | app/notes/new/page.tsx:61-63 | only the tags change, and the removed tag is no longer among them |
| NoteForm.WithoutAppend | app/notes/new/page.tsx:62 | filtering distributes over concatenation, so the kept tags keep their order |
| NoteForm.WithoutCounts | app/notes/new/page.tsx:62 | every other tag keeps its number of occurrences |
| NoteForm.WithoutAbsent | app/notes/new/page.tsx:62 | removing an absent tag changes nothing |
| NoteForm.WithoutSubset | app/notes/new/page.tsx:62 | the remaining tags are exactly the old ones other than the removed tag |
| NoteForm.AddTagKeepsTagsOk | app/notes/new/page.tsx:55-56 | adding keeps the tags trimmed, non-blank and free of duplicates |
| NoteForm.WithoutKeepsTagsOk | app/notes/new/page.tsx:61-63 | removing keeps the tags trimmed, non-blank and free of duplicates |
| NoteForm.RemoveAfterAdd | app/notes/new/page.tsx:54-63 | removing a tag just added restores the tags from before |
| NoteForm.AddTwiceSameTag | app/notes/new/page.tsx:55 | typing the same tag again adds nothing |
| NoteForm.SubmitIgnoresPadding | app/notes/new/page.tsx:241 | blanks around the title do not change whether submit is enabled |
| NoteForm.SubmitIgnoresTags | app/notes/new/page.tsx:241 | editing the tags never changes whether submit is enabled |
| NoteForm.CanSubmit | app/notes/new/page.tsx:241 | submit is enabled iff no save is running, the title and content are not all whitespace, and a subject is chosen |
| AudioPlayer.Sanitize | components/audio-player.tsx:194 | the name keeps its length; each ASCII letter or digit is kept and every other character becomes `_` |
| AudioPlayer.DownloadName | components/audio-player.tsx:194 | the sanitised title (default `Note`), then `_`, then the method exactly as given, then `.txt` |
| AudioPlayer.SanitizeIdempotent | components/audio-player.tsx:194 | sanitising twice is sanitising once |
| AudioPlayer.SanitizeKeepsSafe | components/audio-player.tsx:194 | a title of letters, digits and `_` is kept as it is |
| AudioPlayer.Initial | components/audio-player.tsx:26-36 | the player starts with no progress and nothing spoken |
| AudioPlayer.PlayPressed | components/audio-player.tsx:104-164 | during speech, play toggles pause and resume, starting or stopping the timer, and starts no new utterance; otherwise it speaks the current text |
| AudioPlayer.StopPressed | components/audio-player.tsx:181-187 | stop clears playing, paused and progress and stops the timer, and changes nothing else |
| AudioPlayer.Ended | components/audio-player.tsx:140-145 | the end of speech clears playing, paused and progress and stops the timer |
| AudioPlayer.Failed | components/audio-player.tsx:147-152 | a speech error clears playing and paused and stops the timer, but keeps the progress |
| AudioPlayer.Ticked | components/audio-player.tsx:166-171 | a tick adds 1 only while the engine speaks unpaused, never passes 100, and changes nothing else |
| AudioPlayer.ResetPressed | components/audio-player.tsx:371-376 | reset restores the original text, clears the improved texts and sets the method to `standard` |
| AudioPlayer.ImprovedText | components/audio-player.tsx:75-86 | an improved text becomes the current one and sets the method to `enhanced` or `ssml` |
| AudioPlayer.StepKeepsValid | components/audio-player.tsx:166-187 | no event takes the progress past 100 |
| AudioPlayer.RunKeepsValid | components/audio-player.tsx:166-187 | whatever happens, the progress stays within 0..100 |
| AudioPlayer.TicksAdvance | components/audio-player.tsx:166-171 | while speech runs, n ticks advance the progress by n, up to 100 |
| AudioPlayer.PauseThenResume | components/audio-player.tsx:105-116 | pressing play twice during speech pauses, then resumes, with no new utterance |
| AudioPlayer.PlayAfterStopSpeaksAgain | components/audio-player.tsx:118-187 | after a stop, play speaks the current text again |
| AudioPlayer.ResetUndoesImprovement | components/audio-player.tsx:75-86 | reset after an improvement is the same as reset alone |
| AudioPlayer.Step | components/audio-player.tsx:104-187 | no event changes the note's own text, and an event hands at most one new utterance to the engine, after the earlier ones |
| AudioPlayer.Run | components/audio-player.tsx:104-187 | over any events the note's own text is kept and what was handed to the engine stays a prefix of what is handed later, growing by at most one per event |
| Text.Trim | components/analysis-renderers/mindmap-renderer.tsx:27 | the trim has no edge whitespace, is empty iff the line is all whitespace, and is a slice of the line |
| Text.SplitJoin | components/analysis-renderers/mindmap-renderer.tsx:27 | splitting at newlines undoes joining lines that contain none |
| Text.Split | components/analysis-renderers/mindmap-renderer.tsx:27 | `split` gives at least one part, no part contains the separator, and joining the parts with it gives back the text |
| Text.Lines | components/analysis-renderers/key-points-renderer.tsx:23 | splitting at `\n` gives at least one line, and joining the lines with `\n` gives back the text |
| Text.JoinContains | app/api/quiz/generate/route.ts:36 | every part occurs in the joined text |
| Text.ReplaceFirst | app/api/pdf/analyze/route.ts:85 | `replace` with a string pattern changes nothing without an occurrence, and otherwise replaces the first occurrence only |
| Text.Take | app/api/pdf/analyze/route.ts:64 | `substring(0, n)` has length min(n, length) and is a prefix of the text |
| Text.IndexOf | components/analysis-renderers/flashcards-renderer.tsx:25 | the first occurrence at or after the start position, and none before it; none at all when the result is absent |

## Left out

- Lengths and `substring` bounds are counted in characters, not UTF-16 code
  units, so the 3000, 4096, 6000 and 500 limits differ from the code for
  text outside the Basic Multilingual Plane. The same holds for the file-name
  sanitiser, which turns such a character into one `_` instead of two.
- Temperature, `top_p`, volume, rate and pitch are floating-point values the
  logic never branches on, so they are not modelled.
- The network is not modelled:
  - `fetch`, headers and the OpenRouter endpoint become the `provider`
    function;
  - `response.json()` becomes a parsed or unparsable body;
  - `response.text()` is carried but never read.
- An unreadable request body is not modelled. In every route,
  `request.json()` or `request.formData()` throws on such a body and the
  catch-all answers 500. The models take the body as already parsed.
- Sessions are not modelled: `getServerSession` becomes a user id string and
  `getToken` a boolean.
- Persistence is not modelled: Prisma queries become parameters, such as the
  notes query, or are left out, such as the quiz insert and the audio cache
  lookup, which is proved to have no effect.
- PDF text extraction with `pdf-parse` is a foreign library; it becomes an
  `extract` parameter that succeeds or fails.
- `JSON.parse` becomes a `parse` parameter that returns a syntax error or an
  object whose `questions` may be absent. Only the greedy span extraction
  before it is modelled.
- The current date in the default quiz title is a parameter (`today`).
- Logging is left out, since it has no effect on any result.
- The middleware's `matcher` configuration is framework routing; the model
  takes every path given to it as matched. Of the request URL, only
  `pathname` and the `callbackUrl` parameter are modelled.
- d3 rendering and all JSX and layout are left out.
- The browser speech engine, `setInterval`, `Blob` and URL downloads, the
  clipboard and the voice selection are left out. The engine appears only as
  its `speaking` and `paused` flags, and the interval only as whether a timer
  runs. Starting speech is taken to make the engine speak at once.
- Several timers can exist at once when tracking starts twice without a stop
  in between. The model keeps a single flag for them.
- The flashcard index is not reset when the content changes. The model's
  viewer takes the number of cards as given.
- The regular expressions are modelled by deterministic scans.
  - For flashcards, the lazy groups followed by a trim amount to first-occurrence slicing.
  - For the summary, the multiline `^…$` rewrites act line by line, `.`
    stops at the four ECMAScript line terminators, and the `*` rewrites use
    first-delimiter matching.
- Flashcards.Parse: its contract only bounds the number of cards. What it
  reads is stated by FormatRoundTrip and ParsedCardsAreClean, which assume
  cards whose fields contain no markers.
- Summary.HeadingLine: stated only for lines without `*`. Lines with
  emphasis are covered by StrongBeforeEmphasis for the `**x**` case only.
- MindMap.Parse: its contract states only the depth bound. The lemmas over
  `Build` state the rest: the root name (RootNameIsLastTitle), the sections
  (SectionsAreSecondLevelLines), and each section's children and details in
  line order (SectionIsLocal with SectionChildren, DetailsUnderSection and
  SubsectionGroup).
