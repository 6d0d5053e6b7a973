/**
 * The audio player: the speech engine and the component's own flags as one
 * state, the events that change it (the buttons, the engine's callbacks and
 * the progress timer), and the name of the downloaded text file.
 */
module AudioPlayer {
  import opened Common

  // ---------------------------------------------------------------------
  // The download name.

  /** The characters `/[a-z0-9]/i` accepts: ASCII letters of either case and digits. */
  predicate IsAlnum(c: char) {
    'a' <= c <= 'z' || 'A' <= c <= 'Z' || '0' <= c <= '9'
  }

  /** `title.replace(/[^a-z0-9]/gi, "_")`. */
  function Sanitize(s: string): (r: string)
    ensures |r| == |s|
    ensures forall i :: 0 <= i < |r| ==> IsAlnum(r[i]) || r[i] == '_'
    ensures forall i :: 0 <= i < |s| ==> (r[i] == s[i] <==> IsAlnum(s[i]) || s[i] == '_')
    ensures forall i :: 0 <= i < |s| ==> r[i] == (if IsAlnum(s[i]) then s[i] else '_')
  {
    seq(|s|, i requires 0 <= i < |s| => if IsAlnum(s[i]) then s[i] else '_')
  }

  /** The `title` property, `"Note"` when it is not given. */
  function TitleOf(title: Option<string>): string {
    match title
    case Some(t) => t
    case None => "Note"
  }

  /** `${sanitised title}_${audioMethod}.txt`. */
  function DownloadName(title: Option<string>, audioMethod: string): (r: string)
    ensures |r| == |TitleOf(title)| + 1 + |audioMethod| + 4
    ensures r[..|TitleOf(title)|] == Sanitize(TitleOf(title))
    ensures r[|TitleOf(title)|] == '_'
    ensures r[|TitleOf(title)| + 1..|r| - 4] == audioMethod
    ensures r[|r| - 4..] == ".txt"
  {
    Sanitize(TitleOf(title)) + "_" + audioMethod + ".txt"
  }

  /** Sanitising twice is sanitising once. */
  lemma SanitizeIdempotent(s: string)
    ensures Sanitize(Sanitize(s)) == Sanitize(s)
  {
  }

  /** A title made of letters, digits and `_` only is kept as it is. */
  lemma SanitizeKeepsSafe(s: string)
    requires forall i :: 0 <= i < |s| ==> IsAlnum(s[i]) || s[i] == '_'
    ensures Sanitize(s) == s
  {
  }

  // ---------------------------------------------------------------------
  // The player.

  /**
   * `speaking` and `enginePaused` are the speech engine's flags; `playing`,
   * `paused` and `progress` the component's; `tracking` whether the progress
   * timer runs; `spoken` the utterances handed to the engine so far.
   */
  datatype Player = Player(
    speaking: bool,
    enginePaused: bool,
    playing: bool,
    paused: bool,
    progress: nat,
    tracking: bool,
    spoken: seq<string>,
    text: string,
    currentText: string,
    enhancedText: string,
    ssmlText: string,
    audioMethod: string)

  /** The state on mount: nothing playing, the note's own text, the standard method. */
  function Initial(text: string): (p: Player)
    ensures Valid(p) && p.progress == 0 && p.spoken == []
  {
    Player(false, false, false, false, 0, false, [], text, text, "", "", "standard")
  }

  /** What every reachable state keeps: the progress bar never passes 100%. */
  predicate Valid(p: Player) {
    p.progress <= 100
  }

  /** The events: the buttons, the engine's callbacks, a timer tick, an improved text arriving. */
  datatype Event =
    | Play
    | Stop
    | OnStart
    | OnEnd
    | OnError
    | Tick
    | Reset
    | Improved(ssml: bool, improved: string)

  /**
   * `playWithWebSpeech`. While the engine speaks, pauses or resumes it and
   * starts or stops the timer; otherwise hands it a new utterance of the current text.
   */
  function PlayPressed(p: Player): (r: Player)
    ensures p.speaking ==> r.spoken == p.spoken && r.speaking
    ensures p.speaking ==> r.enginePaused == !p.enginePaused && r.paused == r.enginePaused && r.tracking == !r.enginePaused
    ensures !p.speaking ==> r.spoken == p.spoken + [p.currentText] && r.speaking && !r.enginePaused
    ensures r.progress == p.progress && r.playing == p.playing
  {
    if p.speaking then
      if p.enginePaused then p.(enginePaused := false, paused := false, tracking := true)
      else p.(enginePaused := true, paused := true, tracking := false)
    else p.(spoken := p.spoken + [p.currentText], speaking := true, enginePaused := false)
  }

  /** `utterance.onend`: the engine is done; both flags and the progress are cleared. */
  function Ended(p: Player): (r: Player)
    ensures !r.speaking && !r.playing && !r.paused && r.progress == 0 && !r.tracking
    ensures r.spoken == p.spoken && r.currentText == p.currentText
  {
    p.(speaking := false, enginePaused := false, playing := false, paused := false, progress := 0, tracking := false)
  }

  /** `stopAudio`: cancelling the engine leaves the same state as speech ending by itself. */
  function StopPressed(p: Player): (r: Player)
    ensures !r.speaking && !r.playing && !r.paused && r.progress == 0 && !r.tracking
    ensures r.(speaking := p.speaking, enginePaused := p.enginePaused, playing := p.playing,
                paused := p.paused, progress := p.progress, tracking := p.tracking) == p
  {
    Ended(p)
  }

  /** `utterance.onerror`: like the end, except that the progress is kept. */
  function Failed(p: Player): (r: Player)
    ensures !r.speaking && !r.playing && !r.paused && !r.tracking
    ensures r.progress == p.progress
  {
    p.(speaking := false, enginePaused := false, playing := false, paused := false, tracking := false)
  }

  /** The progress timer's callback: one step while the engine speaks unpaused, capped at 100. */
  function Ticked(p: Player): (r: Player)
    ensures p.tracking && p.speaking && !p.enginePaused && p.progress < 100 ==> r.progress == p.progress + 1
    ensures !(p.tracking && p.speaking && !p.enginePaused) ==> r == p
    ensures Valid(p) ==> Valid(r)
    ensures r.(progress := p.progress) == p
  {
    if p.tracking && p.speaking && !p.enginePaused then p.(progress := if p.progress + 1 < 100 then p.progress + 1 else 100)
    else p
  }

  /** The reset button: back to the note's own text and the standard method. */
  function ResetPressed(p: Player): (r: Player)
    ensures r.currentText == p.text && r.enhancedText == "" && r.ssmlText == "" && r.audioMethod == "standard"
    ensures r.progress == p.progress && r.spoken == p.spoken
  {
    p.(currentText := p.text, enhancedText := "", ssmlText := "", audioMethod := "standard")
  }

  /** `enhanceTextWithAI` on success: the improved text becomes the one spoken next. */
  function ImprovedText(p: Player, ssml: bool, improved: string): (r: Player)
    ensures r.currentText == improved && r.audioMethod == (if ssml then "ssml" else "enhanced")
    ensures ssml ==> r.ssmlText == improved && r.enhancedText == p.enhancedText
    ensures !ssml ==> r.enhancedText == improved && r.ssmlText == p.ssmlText
    ensures r.text == p.text && r.progress == p.progress
  {
    if ssml then p.(ssmlText := improved, currentText := improved, audioMethod := "ssml")
    else p.(enhancedText := improved, currentText := improved, audioMethod := "enhanced")
  }

  /** One event. The note's own text never changes, and utterances are only ever appended, one at a time. */
  function Step(p: Player, e: Event): (r: Player)
    ensures r.text == p.text
    ensures p.spoken <= r.spoken && |r.spoken| <= |p.spoken| + 1
  {
    match e
    case Play => PlayPressed(p)
    case Stop => StopPressed(p)
    case OnStart => p.(playing := true, paused := false, tracking := true)
    case OnEnd => Ended(p)
    case OnError => Failed(p)
    case Tick => Ticked(p)
    case Reset => ResetPressed(p)
    case Improved(ssml, improved) => ImprovedText(p, ssml, improved)
  }

  /** The events in order. What was handed to the engine stays a prefix of what is handed later. */
  function Run(p: Player, es: seq<Event>): (r: Player)
    ensures r.text == p.text
    ensures p.spoken <= r.spoken && |r.spoken| <= |p.spoken| + |es|
    decreases |es|
  {
    if es == [] then p else Run(Step(p, es[0]), es[1..])
  }

  // ---------------------------------------------------------------------
  // Properties.

  /** No event takes the progress past 100. */
  lemma StepKeepsValid(p: Player, e: Event)
    requires Valid(p)
    ensures Valid(Step(p, e))
  {
  }

  /** From the initial state, the progress stays within 0..100 whatever happens. */
  lemma {:induction false} RunKeepsValid(p: Player, es: seq<Event>)
    requires Valid(p)
    ensures Valid(Run(p, es))
    decreases |es|
  {
    if es != [] {
      StepKeepsValid(p, es[0]);
      RunKeepsValid(Step(p, es[0]), es[1..]);
    }
  }

  function Ticks(n: nat): (es: seq<Event>)
    ensures |es| == n && forall i :: 0 <= i < n ==> es[i] == Tick
  {
    if n == 0 then [] else [Tick] + Ticks(n - 1)
  }

  /** While speech runs, `n` ticks advance the progress by `n`, up to 100. */
  lemma {:induction false} TicksAdvance(p: Player, n: nat)
    requires p.tracking && p.speaking && !p.enginePaused && Valid(p)
    ensures Run(p, Ticks(n)).progress == if p.progress + n < 100 then p.progress + n else 100
    decreases n
  {
    if n > 0 {
      assert Ticks(n)[1..] == Ticks(n - 1);
      TicksAdvance(Ticked(p), n - 1);
    }
  }

  /** Pressing play twice during speech pauses and resumes it, with no new utterance. */
  lemma PauseThenResume(p: Player)
    requires p.speaking && !p.enginePaused && !p.paused && p.tracking
    ensures PlayPressed(PlayPressed(p)) == p
  {
  }

  /** After a stop, pressing play speaks the current text afresh. */
  lemma PlayAfterStopSpeaksAgain(p: Player)
    ensures PlayPressed(StopPressed(p)).spoken == p.spoken + [p.currentText]
  {
  }

  /** Resetting after an improvement speaks the note's own text again. */
  lemma ResetUndoesImprovement(p: Player, ssml: bool, improved: string)
    ensures ResetPressed(ImprovedText(p, ssml, improved)) == ResetPressed(p)
  {
  }
}
