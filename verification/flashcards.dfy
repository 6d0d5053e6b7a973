/**
 * The flashcard renderer: `parseFlashcards` reads `## Fiche N: title`
 * blocks with a `**Question**: ` and a `**Réponse**: ` part into cards,
 * and the viewer steps through the cards cyclically and flips the current
 * one.
 *
 * The global regular expression is modelled as the scan it amounts to.
 * Its `\s*` and the lazy groups end each title and question at the first
 * following marker, and `trim()` then drops the whitespace that `\s*`
 * would have absorbed. The answer is lazy up to the lookahead, so it ends
 * at the first `## Fiche`, `\n\n\n` or end of input. With the `s` flag
 * `.` also matches newlines. When the first header has no question or no
 * answer marker after it, neither has any later header, so the scan stops.
 */
module Flashcards {
  import opened Common
  import opened Text

  datatype Card = Card(title: string, question: string, answer: string)

  const HeaderStart := "## Fiche "
  const QuestionMark := "**Question**: "
  const AnswerMark := "**Réponse**: "
  /** The lookahead alternatives that end an answer, besides end of input. */
  const NextCard := "## Fiche"
  const GapMark := "\n\n\n"

  predicate IsDigit(c: char) {
    '0' <= c <= '9'
  }

  /** The length of the run of digits starting at `i` (`\d+` is greedy). */
  function DigitRun(s: string, i: nat): (n: nat)
    requires i <= |s|
    ensures i + n <= |s|
    ensures forall k :: i <= k < i + n ==> IsDigit(s[k])
    ensures i + n == |s| || !IsDigit(s[i + n])
    decreases |s| - i
  {
    if i < |s| && IsDigit(s[i]) then 1 + DigitRun(s, i + 1) else 0
  }

  /** Where the header `## Fiche \d+: ` that starts at `p` ends, if one starts there. */
  function HeaderEnd(s: string, p: nat): (r: Option<nat>)
    ensures r.Some? ==> OccursAt(s, HeaderStart, p) && p + |HeaderStart| < r.value <= |s|
  {
    if OccursAt(s, HeaderStart, p) then
      var d := p + |HeaderStart|;
      var n := DigitRun(s, d);
      if n > 0 && OccursAt(s, ": ", d + n) then Some(d + n + 2) else None
    else None
  }

  /** The first header at or after `from`. */
  function NextHeader(s: string, from: nat): (r: Option<nat>)
    ensures r.Some? ==> from <= r.value && HeaderEnd(s, r.value).Some?
    ensures forall p: nat :: from <= p && (r.None? || p < r.value) ==> HeaderEnd(s, p).None?
    decreases |s| - from
  {
    if HeaderEnd(s, from).Some? then Some(from)
    else if from >= |s| then None
    else NextHeader(s, from + 1)
  }

  /** The lookahead `(?=## Fiche|\n\n\n|$)` succeeds at `e`. */
  predicate StopsAt(s: string, e: nat) {
    OccursAt(s, NextCard, e) || OccursAt(s, GapMark, e) || e == |s|
  }

  /** The first position at or after `a` where an answer may stop. */
  function AnswerEnd(s: string, a: nat): (e: nat)
    requires a <= |s|
    ensures a <= e <= |s| && StopsAt(s, e)
    ensures forall k: nat :: a <= k < e ==> !StopsAt(s, k)
    decreases |s| - a
  {
    if StopsAt(s, a) then a else AnswerEnd(s, a + 1)
  }

  /** A card as the scan produces it: trimmed fields, and an answer free of stop markers. */
  predicate Clean(c: Card) {
    && IsTrimmed(c.title) && IsTrimmed(c.question) && IsTrimmed(c.answer)
    && !Contains(c.answer, NextCard) && !Contains(c.answer, GapMark)
  }

  /** The answer of a card never contains the markers that end it. */
  lemma AnswerIsClean(s: string, a: nat)
    requires a <= |s|
    ensures !Contains(Trim(s[a..AnswerEnd(s, a)]), NextCard)
    ensures !Contains(Trim(s[a..AnswerEnd(s, a)]), GapMark)
  {
    var e := AnswerEnd(s, a);
    forall p | p == NextCard || p == GapMark
      ensures !Contains(s[a..e], p)
    {
      forall i: nat | i <= e - a
        ensures !OccursAt(s[a..e], p, i)
      {
        if OccursAt(s[a..e], p, i) {
          OccursInSlice(s, p, a, e, i);
          assert StopsAt(s, a + i);
        }
      }
    }
    if Contains(Trim(s[a..e]), NextCard) {
      ContainsOfTrim(s[a..e], NextCard);
    }
    if Contains(Trim(s[a..e]), GapMark) {
      ContainsOfTrim(s[a..e], GapMark);
    }
  }

  /**
   * Where the three groups of one match lie in the text. The question
   * marker ends the title group, the answer marker ends the question group,
   * and the match ends with the answer group.
   */
  datatype Span = Span(
    titleStart: nat, titleEnd: nat,
    questionStart: nat, questionEnd: nat,
    answerStart: nat, answerEnd: nat)
  {
    predicate Fits(s: string) {
      && titleStart <= titleEnd <= questionStart <= questionEnd
      && questionEnd <= answerStart <= answerEnd <= |s|
    }
  }

  /**
   * One `regex.exec`: the pieces of the first match in `s`, or `None` when
   * no further match exists.
   */
  function Match(s: string): (r: Option<Span>)
    ensures r.Some? ==> r.value.Fits(s) && 0 < r.value.answerEnd
  {
    match NextHeader(s, 0)
    case None => None
    case Some(p) =>
      var h := HeaderEnd(s, p).value;
      match IndexOf(s, QuestionMark, h)
      case None => None
      case Some(q) =>
        match IndexOf(s, AnswerMark, q + |QuestionMark|)
        case None => None
        case Some(m) =>
          var a := m + |AnswerMark|;
          Some(Span(h, q, q + |QuestionMark|, m, a, AnswerEnd(s, a)))
  }

  /** The card a match yields: its three groups, trimmed. */
  function CardOf(s: string, sp: Span): Card
    requires sp.Fits(s)
  {
    Card(
      Trim(s[sp.titleStart..sp.titleEnd]),
      Trim(s[sp.questionStart..sp.questionEnd]),
      Trim(s[sp.answerStart..sp.answerEnd]))
  }

  /** A card read by one match is clean. */
  lemma MatchIsClean(s: string)
    requires Match(s).Some?
    ensures Clean(CardOf(s, Match(s).value))
  {
    var sp := Match(s).value;
    assert sp.answerEnd == AnswerEnd(s, sp.answerStart);
    SpanIsClean(s, sp);
  }

  lemma SpanIsClean(s: string, sp: Span)
    requires sp.Fits(s) && sp.answerEnd == AnswerEnd(s, sp.answerStart)
    ensures Clean(CardOf(s, sp))
  {
    var c := CardOf(s, sp);
    AnswerIsClean(s, sp.answerStart);
    assert c.answer == Trim(s[sp.answerStart..sp.answerEnd]);
    assert !Contains(c.answer, NextCard);
    assert !Contains(c.answer, GapMark);
    assert IsTrimmed(c.title);
    assert IsTrimmed(c.question);
    assert IsTrimmed(c.answer);
  }

  /** `parseFlashcards`: the cards in document order. */
  function Parse(s: string): (cards: seq<Card>)
    ensures |cards| <= |s|
    decreases |s|
  {
    var m := Match(s);
    if m.None? then [] else [CardOf(s, m.value)] + Parse(s[m.value.answerEnd..])
  }

  /** Every card read has trimmed fields and an answer free of the markers that end it. */
  lemma {:induction false} ParsedCardsAreClean(s: string)
    ensures forall k :: 0 <= k < |Parse(s)| ==> Clean(Parse(s)[k])
    decreases |s|
  {
    var m := Match(s);
    if m.Some? {
      var rest := s[m.value.answerEnd..];
      MatchIsClean(s);
      ParsedCardsAreClean(rest);
      var cards := Parse(s);
      assert cards == [CardOf(s, m.value)] + Parse(rest);
      forall k | 0 <= k < |cards|
        ensures Clean(cards[k])
      {
        if k > 0 {
          assert cards[k] == Parse(rest)[k - 1];
        }
      }
    }
  }

  // ---------------------------------------------------------------------
  // The format the prompt asks for, and the round trip.

  /** The header that opens card number `n`. */
  function Header(n: nat): string {
    HeaderStart + NatToString(n) + ": "
  }

  /** The text after a card's header: its three fields on their own lines, then `rest`. */
  function Fields(c: Card, rest: string): string {
    c.title + "\n" + (QuestionMark + QuestionTail(c, rest))
  }

  /** The cards laid out one after another as the analysis prompt asks, numbered from `n`. */
  function Format(cards: seq<Card>, n: nat): (s: string)
    ensures cards == [] <==> s == []
    ensures cards != [] ==> StartsWith(s, NextCard)
    decreases |cards|
  {
    if cards == [] then []
    else
      var s := Header(n) + Fields(cards[0], Format(cards[1..], n + 1));
      assert s[..|NextCard|] == NextCard;
      s
  }

  /** A card the scan can read back: clean, and no marker inside a field before its own. */
  predicate Readable(c: Card) {
    Clean(c) && !Contains(c.title, QuestionMark) && !Contains(c.question, AnswerMark)
  }

  /** The text before the question's line and before the answer's line of a card. */
  function BeforeQuestion(n: nat, c: Card): string {
    Header(n) + c.title + "\n" + QuestionMark
  }

  function BeforeAnswer(n: nat, c: Card): string {
    BeforeQuestion(n, c) + c.question + "\n" + AnswerMark
  }

  /** What follows the question marker of a card's fields. */
  function QuestionTail(c: Card, rest: string): string {
    c.question + "\n" + (AnswerMark + AnswerTail(c, rest))
  }

  /** What follows the answer marker of a card's fields. */
  function AnswerTail(c: Card, rest: string): string {
    c.answer + "\n" + rest
  }

  /** Where the groups of card `n` lie when it is laid out. */
  function BlockSpan(n: nat, c: Card): Span {
    var q := |Header(n)| + |c.title| + 1;
    var m := q + |QuestionMark| + |c.question| + 1;
    var a := m + |AnswerMark|;
    Span(|Header(n)|, q, q + |QuestionMark|, m, a, a + |c.answer| + 1)
  }

  /** The header of card `n` at the start of `s`. */
  predicate HeaderLaid(s: string, n: nat) {
    && OccursAt(s, HeaderStart, 0)
    && OccursAt(s, NatToString(n), |HeaderStart|)
    && OccursAt(s, ": ", |HeaderStart| + |NatToString(n)|)
  }

  /** The field `f` on its own line, from `lo` up to `hi`, just after its newline. */
  predicate LineAt(s: string, lo: nat, hi: nat, f: string) {
    lo + |f| + 1 == hi <= |s| && s[lo..lo + |f|] == f && s[lo + |f|] == '\n'
  }

  /** `s` holds card `n` laid out as `Format` does it, followed by `rest`. */
  predicate Laid(s: string, n: nat, c: Card, rest: string) {
    var sp := BlockSpan(n, c);
    && HeaderLaid(s, n)
    && LineAt(s, sp.titleStart, sp.titleEnd, c.title)
    && OccursAt(s, QuestionMark, sp.titleEnd)
    && LineAt(s, sp.questionStart, sp.questionEnd, c.question)
    && OccursAt(s, AnswerMark, sp.questionEnd)
    && LineAt(s, sp.answerStart, sp.answerEnd, c.answer)
    && s[sp.answerEnd..] == rest
  }

  /** A laid-out card, split at each of its fields. */
  lemma RegroupTitle(s: string, n: nat, c: Card, rest: string)
    requires s == Header(n) + Fields(c, rest)
    ensures s == Header(n) + c.title + "\n" + (QuestionMark + QuestionTail(c, rest))
  {
  }

  lemma RegroupQuestion(s: string, n: nat, c: Card, rest: string)
    requires s == Header(n) + Fields(c, rest)
    ensures s == BeforeQuestion(n, c) + c.question + "\n" + (AnswerMark + AnswerTail(c, rest))
  {
  }

  lemma RegroupAnswer(s: string, n: nat, c: Card, rest: string)
    requires s == Header(n) + Fields(c, rest)
    ensures s == BeforeAnswer(n, c) + c.answer + "\n" + rest
  {
  }

  /** The lengths of the text before each group of a laid-out card. */
  lemma BlockLengths(n: nat, c: Card)
    ensures |Header(n)| == BlockSpan(n, c).titleStart
    ensures |BeforeQuestion(n, c)| == BlockSpan(n, c).questionStart
    ensures |BeforeAnswer(n, c)| == BlockSpan(n, c).answerStart
  {
  }

  lemma LaidHeader(s: string, n: nat, post: string)
    requires s == Header(n) + post
    ensures HeaderLaid(s, n)
  {
    var d := NatToString(n);
    assert s[..|HeaderStart|] == HeaderStart;
    assert s[|HeaderStart|..|HeaderStart| + |d|] == d;
    assert s[|HeaderStart| + |d|..|HeaderStart| + |d| + 2] == ": ";
  }

  /** A field on its own line after `pre`, then a marker. */
  lemma LaidLine(s: string, pre: string, f: string, mark: string, post: string, lo: nat, hi: nat)
    requires s == pre + f + "\n" + (mark + post)
    requires lo == |pre| && hi == lo + |f| + 1
    ensures LineAt(s, lo, hi, f) && OccursAt(s, mark, hi)
  {
    assert s[lo..lo + |f|] == f;
    assert s[hi..hi + |mark|] == mark;
  }

  lemma LaidLastLine(s: string, pre: string, f: string, rest: string, lo: nat, hi: nat)
    requires s == pre + f + "\n" + rest
    requires lo == |pre| && hi == lo + |f| + 1
    ensures LineAt(s, lo, hi, f) && s[hi..] == rest
  {
    assert s[lo..lo + |f|] == f;
    assert s[hi..] == rest;
  }

  /** Laying out card `n` places its pieces where `Laid` says. */
  lemma LaidBlock(s: string, n: nat, c: Card, rest: string)
    requires s == Header(n) + Fields(c, rest)
    ensures Laid(s, n, c, rest)
  {
    var sp := BlockSpan(n, c);
    BlockLengths(n, c);
    LaidHeader(s, n, Fields(c, rest));
    RegroupTitle(s, n, c, rest);
    LaidLine(s, Header(n), c.title, QuestionMark, QuestionTail(c, rest), sp.titleStart, sp.titleEnd);
    RegroupQuestion(s, n, c, rest);
    LaidLine(s, BeforeQuestion(n, c), c.question, AnswerMark, AnswerTail(c, rest), sp.questionStart, sp.questionEnd);
    RegroupAnswer(s, n, c, rest);
    LaidLastLine(s, BeforeAnswer(n, c), c.answer, rest, sp.answerStart, sp.answerEnd);
  }

  /** The header laid out at the start is the first header, and it ends after the number and `": "`. */
  lemma HeaderFound(s: string, n: nat)
    requires HeaderLaid(s, n)
    ensures HeaderEnd(s, 0) == Some(|Header(n)|) && NextHeader(s, 0) == Some(0)
  {
    var d := NatToString(n);
    var start := |HeaderStart|;
    forall k | start <= k < start + |d|
      ensures IsDigit(s[k])
    {
      assert s[k] == s[start..start + |d|][k - start];
    }
    assert s[start + |d|] == s[start + |d|..start + |d| + 2][0];
    assert DigitRun(s, start + |d|) == 0;
    DigitRunOf(s, start, |d|);
  }

  lemma {:induction false} DigitRunOf(s: string, i: nat, n: nat)
    requires i + n <= |s|
    requires forall k :: i <= k < i + n ==> IsDigit(s[k])
    requires DigitRun(s, i + n) == 0
    ensures DigitRun(s, i) == n
    decreases n
  {
    if n > 0 {
      DigitRunOf(s, i + 1, n - 1);
    }
  }

  /**
   * A field on its own line, then a marker the field does not contain: the
   * search from the field finds the marker right after the newline.
   */
  lemma LineFound(s: string, lo: nat, hi: nat, f: string, mark: string)
    requires LineAt(s, lo, hi, f) && OccursAt(s, mark, hi)
    requires !Contains(f, mark) && |mark| > 0 && '\n' !in mark
    ensures IndexOf(s, mark, lo) == Some(hi)
  {
    NoOccurrenceAcross(s, mark, lo, lo + |f|);
    IndexOfIs(s, mark, lo, hi);
  }

  /** A trimmed field's line, trimmed, is the field. */
  lemma LineTrim(s: string, lo: nat, hi: nat, f: string)
    requires LineAt(s, lo, hi, f) && IsTrimmed(f)
    ensures Trim(s[lo..hi]) == f
  {
    assert s[lo..hi] == f + "\n";
    TrimPadded("", f, "\n");
    assert "" + f + "\n" == f + "\n";
  }

  /**
   * A trimmed answer free of stop markers, then a newline, then either the
   * end of the text or the next card: the answer stops right before that.
   */
  lemma AnswerStops(s: string, lo: nat, b: nat)
    requires lo <= b < |s| && s[b] == '\n'
    requires IsTrimmed(s[lo..b]) && !Contains(s[lo..b], NextCard) && !Contains(s[lo..b], GapMark)
    requires b + 1 == |s| || OccursAt(s, NextCard, b + 1)
    ensures AnswerEnd(s, lo) == b + 1
  {
    NoOccurrenceAcross(s, NextCard, lo, b);
    if lo < b {
      assert s[b - 1] == s[lo..b][b - 1 - lo];
      assert !Contains(s[lo..b - 1], GapMark) by {
        if Contains(s[lo..b - 1], GapMark) {
          var i: nat :| i <= b - 1 - lo && OccursAt(s[lo..b - 1], GapMark, i);
          SliceOfSlice(s, lo, b, 0, b - 1 - lo);
          OccursInSlice(s[lo..b], GapMark, 0, b - 1 - lo, i);
        }
      }
      NoOccurrenceAcross(s, GapMark, lo, b - 1);
    }
    assert !OccursAt(s, GapMark, b) by {
      if b + 1 < |s| {
        assert s[b + 1] == s[b + 1..b + 1 + |NextCard|][0];
      }
    }
    forall k: nat | lo <= k <= b
      ensures !StopsAt(s, k)
    {
    }
    AnswerEndIs(s, lo, b + 1);
  }

  lemma AnswerEndIs(s: string, a: nat, e: nat)
    requires a <= e <= |s| && StopsAt(s, e)
    requires forall k: nat :: a <= k < e ==> !StopsAt(s, k)
    ensures AnswerEnd(s, a) == e
  {
  }

  /** The answer's line, followed by nothing or by the next card, ends the match. */
  lemma AnswerFound(s: string, lo: nat, hi: nat, c: Card, rest: string)
    requires LineAt(s, lo, hi, c.answer) && s[hi..] == rest && Clean(c)
    requires rest == [] || StartsWith(rest, NextCard)
    ensures AnswerEnd(s, lo) == hi
  {
    var b := lo + |c.answer|;
    assert b + 1 == |s| || OccursAt(s, NextCard, b + 1) by {
      if rest != [] {
        assert s[b + 1..b + 1 + |NextCard|] == rest[..|NextCard|];
      }
    }
    AnswerStops(s, lo, b);
  }

  /** `Match` in terms of the positions its searches find. */
  lemma MatchAt(s: string, h: nat, q: nat, qs: nat, m: nat, e: nat)
    requires NextHeader(s, 0) == Some(0) && HeaderEnd(s, 0) == Some(h)
    requires IndexOf(s, QuestionMark, h) == Some(q)
    requires qs == q + |QuestionMark| && IndexOf(s, AnswerMark, qs) == Some(m)
    requires m + |AnswerMark| <= |s| && AnswerEnd(s, m + |AnswerMark|) == e
    ensures Match(s).Some?
    ensures var sp := Match(s).value;
      && sp.titleStart == h && sp.titleEnd == q && sp.questionStart == qs
      && sp.questionEnd == m && sp.answerStart == m + |AnswerMark| && sp.answerEnd == e
  {
  }

  /** The match on a laid-out card covers exactly that card. */
  lemma MatchOfLaid(s: string, n: nat, c: Card, rest: string)
    requires Laid(s, n, c, rest) && Readable(c)
    requires rest == [] || StartsWith(rest, NextCard)
    ensures Match(s).Some?
    ensures var m, sp := Match(s).value, BlockSpan(n, c);
      && m.titleStart == sp.titleStart && m.titleEnd == sp.titleEnd
      && m.questionStart == sp.questionStart && m.questionEnd == sp.questionEnd
      && m.answerStart == sp.answerStart && m.answerEnd == sp.answerEnd
  {
    var sp := BlockSpan(n, c);
    HeaderFound(s, n);
    LineFound(s, sp.titleStart, sp.titleEnd, c.title, QuestionMark);
    LineFound(s, sp.questionStart, sp.questionEnd, c.question, AnswerMark);
    AnswerFound(s, sp.answerStart, sp.answerEnd, c, rest);
    MatchAt(s, sp.titleStart, sp.titleEnd, sp.questionStart, sp.questionEnd, sp.answerEnd);
  }

  /** Trimming the groups of that match gives back the card. */
  lemma CardOfLaid(s: string, n: nat, c: Card, rest: string)
    requires Laid(s, n, c, rest) && Readable(c)
    ensures BlockSpan(n, c).Fits(s) && CardOf(s, BlockSpan(n, c)) == c
  {
    var sp := BlockSpan(n, c);
    LineTrim(s, sp.titleStart, sp.titleEnd, c.title);
    LineTrim(s, sp.questionStart, sp.questionEnd, c.question);
    LineTrim(s, sp.answerStart, sp.answerEnd, c.answer);
  }

  /** One step of `Parse`: the card of the match, then what follows the match. */
  lemma ParseStep(s: string, c: Card, rest: string)
    requires Match(s).Some? && CardOf(s, Match(s).value) == c
    requires s[Match(s).value.answerEnd..] == rest
    ensures Parse(s) == [c] + Parse(rest)
  {
  }

  /** Reading a laid-out card yields that card, then reads on from `rest`. */
  lemma BlockRoundTrip(s: string, n: nat, c: Card, rest: string)
    requires Laid(s, n, c, rest) && Readable(c)
    requires rest == [] || StartsWith(rest, NextCard)
    ensures Parse(s) == [c] + Parse(rest)
  {
    MatchOfLaid(s, n, c, rest);
    CardOfLaid(s, n, c, rest);
    ParseStep(s, c, rest);
  }

  /** The first card of a layout is laid out in front of the layout of the others. */
  lemma FormatLaid(cards: seq<Card>, n: nat)
    requires cards != []
    ensures Laid(Format(cards, n), n, cards[0], Format(cards[1..], n + 1))
  {
    LaidBlock(Format(cards, n), n, cards[0], Format(cards[1..], n + 1));
  }

  /** Reading a layout yields its first card, then reads the layout of the others. */
  lemma FormatStep(cards: seq<Card>, n: nat)
    requires cards != [] && Readable(cards[0])
    ensures Parse(Format(cards, n)) == [cards[0]] + Parse(Format(cards[1..], n + 1))
  {
    FormatLaid(cards, n);
    BlockRoundTrip(Format(cards, n), n, cards[0], Format(cards[1..], n + 1));
  }

  lemma HeadTail<T>(xs: seq<T>)
    requires xs != []
    ensures [xs[0]] + xs[1..] == xs
  {
  }

  /** Laying cards out and reading them back gives the same cards. */
  lemma {:induction false} FormatRoundTrip(cards: seq<Card>, n: nat)
    requires forall k :: 0 <= k < |cards| ==> Readable(cards[k])
    ensures Parse(Format(cards, n)) == cards
    decreases |cards|
  {
    if cards != [] {
      FormatStep(cards, n);
      FormatRoundTrip(cards[1..], n + 1);
      HeadTail(cards);
    }
  }

  /** Text without a single `## Fiche <digits>: ` header yields no cards. */
  lemma NoHeaderNoCards(s: string)
    requires forall p: nat :: HeaderEnd(s, p).None?
    ensures Parse(s) == []
  {
    assert NextHeader(s, 0).None?;
  }

  // ---------------------------------------------------------------------
  // The viewer.

  /** `handleNext`: the last card wraps to the first. */
  function Next(i: int, n: nat): (r: int)
    ensures 0 <= i < n ==> 0 <= r < n && r == (i + 1) % n
  {
    if i == n - 1 then 0 else i + 1
  }

  /** `handlePrevious`: the first card wraps to the last. */
  function Previous(i: int, n: nat): (r: int)
    ensures 0 <= i < n ==> 0 <= r < n && (r + 1) % n == i
  {
    if i == 0 then n - 1 else i - 1
  }

  /** Stepping forward and back, in either order, returns to the same card. */
  lemma NextPreviousInverse(i: int, n: nat)
    requires 0 <= i < n
    ensures Previous(Next(i, n), n) == i
    ensures Next(Previous(i, n), n) == i
  {
  }

  /** The current card and whether it shows its answer. */
  datatype Viewer = Viewer(current: int, flipped: bool)

  const Initial := Viewer(0, false)

  /** The viewer after `handleNext`: the following card, question side up. */
  function MoveNext(v: Viewer, n: nat): (r: Viewer)
    ensures !r.flipped && (0 <= v.current < n ==> 0 <= r.current < n)
    ensures 0 <= v.current < n ==> r.current == (v.current + 1) % n
  {
    Viewer(Next(v.current, n), false)
  }

  /** The viewer after `handlePrevious`: the preceding card, question side up. */
  function MovePrevious(v: Viewer, n: nat): (r: Viewer)
    ensures !r.flipped && (0 <= v.current < n ==> 0 <= r.current < n)
    ensures 0 <= v.current < n ==> r.current == (if v.current == 0 then n - 1 else v.current - 1)
  {
    Viewer(Previous(v.current, n), false)
  }

  /** `handleFlip`. */
  function Flip(v: Viewer): (r: Viewer)
    ensures r.current == v.current && r.flipped != v.flipped
  {
    v.(flipped := !v.flipped)
  }

  /** Flipping twice shows the same side; moving away and back shows the question. */
  lemma ViewerRoundTrips(v: Viewer, n: nat)
    requires 0 <= v.current < n
    ensures Flip(Flip(v)) == v
    ensures MovePrevious(MoveNext(v, n), n) == v.(flipped := false)
  {
    NextPreviousInverse(v.current, n);
  }
}
