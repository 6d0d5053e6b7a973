/**
 * `markdownToHtml` of the summary renderer: seven regular-expression
 * replacements applied one after another. Three turn heading lines into
 * `<h1>`..`<h3>`, two turn `**x**` and `*x*` into `<strong>` and `<em>`, one
 * turns `- ` lines into `<li>`, and the last turns each `"\n\n"` into `<br/>`.
 */
module Summary {
  import opened Common
  import opened Text

  /** The ECMAScript line terminators: where `^` and `$` match under the `m` flag and what `.` refuses. */
  predicate IsBreak(c: char) {
    c == '\n' || c == '\r' || c == '\U{2028}' || c == '\U{2029}'
  }

  predicate NoBreak(s: string) {
    forall c :: c in s ==> !IsBreak(c)
  }

  /** One line with no `*`: text that only the line rewrites can change. */
  predicate Plain(s: string) {
    NoBreak(s) && '*' !in s
  }

  /** The index of the first line terminator of `s`, or `|s|`. */
  function LineEnd(s: string): (i: nat)
    ensures i <= |s| && NoBreak(s[..i])
    ensures i < |s| ==> IsBreak(s[i])
    decreases |s|
  {
    if s == [] || IsBreak(s[0]) then 0
    else
      var j := LineEnd(s[1..]);
      assert s[..j + 1] == [s[0]] + s[1..][..j];
      j + 1
  }

  // ---------------------------------------------------------------------
  // The line rewrites `/^<prefix>(.*$)/gm`.

  /** A line rewrite: a line starting with `prefix` becomes `open`, the rest of the line, `close`. */
  datatype Rule = Rule(prefix: string, open: string, close: string)

  const H1 := Rule("# ", "<h1 class=\"text-2xl font-bold mt-6 mb-4\">", "</h1>")
  const H2 := Rule("## ", "<h2 class=\"text-xl font-bold mt-5 mb-3\">", "</h2>")
  const H3 := Rule("### ", "<h3 class=\"text-lg font-bold mt-4 mb-2\">", "</h3>")
  const ListItem := Rule("- ", "<li class=\"ml-4\">", "</li>")

  /** The rewrite of one line, which holds no line terminator. */
  function RewriteLine(line: string, rule: Rule): (r: string)
    ensures StartsWith(line, rule.prefix) ==> r == rule.open + line[|rule.prefix|..] + rule.close
    ensures !StartsWith(line, rule.prefix) ==> r == line
  {
    if StartsWith(line, rule.prefix) then rule.open + line[|rule.prefix|..] + rule.close else line
  }

  /** The rewrite applied to every line of `s`; the line terminators stay where they are. */
  function RewriteLines(s: string, rule: Rule): string
    decreases |s|
  {
    var i := LineEnd(s);
    if i == |s| then RewriteLine(s, rule)
    else RewriteLine(s[..i], rule) + [s[i]] + RewriteLines(s[i + 1..], rule)
  }

  /** Lines are rewritten one by one: a line and its terminator, then the rest. */
  lemma LinesAreLocal(a: string, t: char, b: string, rule: Rule)
    requires NoBreak(a) && IsBreak(t)
    ensures RewriteLines(a + [t] + b, rule) == RewriteLine(a, rule) + [t] + RewriteLines(b, rule)
  {
    var s := a + [t] + b;
    LineEndIs(s, |a|);
    assert s[..|a|] == a && s[|a| + 1..] == b;
  }

  lemma LineEndIs(s: string, i: nat)
    requires i < |s| && NoBreak(s[..i]) && IsBreak(s[i])
    ensures LineEnd(s) == i
  {
  }

  /** Text with no line starting with the prefix is left as it is. */
  lemma {:induction false} RewriteLinesUnchanged(s: string, rule: Rule)
    requires |rule.prefix| > 0 && rule.prefix[0] !in s
    ensures RewriteLines(s, rule) == s
    decreases |s|
  {
    var i := LineEnd(s);
    assert !StartsWith(s[..i], rule.prefix) by {
      if |s[..i]| > 0 {
        assert s[..i][0] == s[0];
      }
    }
    if i < |s| {
      RewriteLinesUnchanged(s[i + 1..], rule);
      assert s == s[..i] + [s[i]] + s[i + 1..];
    }
  }

  /** A single line is rewritten as one line. */
  lemma OneLine(s: string, rule: Rule)
    requires NoBreak(s)
    ensures RewriteLines(s, rule) == RewriteLine(s, rule)
  {
    assert s[..|s|] == s;
  }

  // ---------------------------------------------------------------------
  // The delimiter rewrites `/\*\*(.*?)\*\*/g` and `/\*(.*?)\*/g`.

  /** Where the lazy `(.*?)` stops: the first closing delimiter, if no line terminator comes before it. */
  function CloseAt(t: string, d: string): (r: Option<nat>)
    ensures r.Some? ==> OccursAt(t, d, r.value) && NoBreak(t[..r.value])
    ensures r.Some? ==> forall j: nat :: j < r.value ==> !OccursAt(t, d, j)
  {
    match IndexOf(t, d, 0)
    case None => None
    case Some(k) => if NoBreak(t[..k]) then Some(k) else None
  }

  /**
   * The global replacement: scanning from the left, each `d`, shortest text
   * on the same line, `d` becomes `<tag>text</tag>`; other characters stay.
   */
  function Delimited(s: string, d: string, tag: string): string
    requires |d| > 0
    decreases |s|
  {
    if s == [] then []
    else if StartsWith(s, d) && CloseAt(s[|d|..], d).Some? then
      var k := CloseAt(s[|d|..], d).value;
      "<" + tag + ">" + s[|d|..|d| + k] + "</" + tag + ">" + Delimited(s[|d| + k + |d|..], d, tag)
    else [s[0]] + Delimited(s[1..], d, tag)
  }

  /** Text without the delimiter's first character is left as it is. */
  lemma {:induction false} DelimitedUnchanged(s: string, d: string, tag: string)
    requires |d| > 0 && d[0] !in s
    ensures Delimited(s, d, tag) == s
    decreases |s|
  {
    if s != [] {
      assert !StartsWith(s, d) by {
        if |d| <= |s| {
          assert s[..|d|][0] == s[0];
        }
      }
      DelimitedUnchanged(s[1..], d, tag);
      assert s == [s[0]] + s[1..];
    }
  }

  /** A delimited run of plain text on one line becomes one element. */
  lemma DelimitedPair(x: string, d: string, tag: string)
    requires |d| > 0 && d[0] !in x && NoBreak(x)
    ensures Delimited(d + x + d, d, tag) == "<" + tag + ">" + x + "</" + tag + ">"
  {
    var s := d + x + d;
    var t := x + d;
    assert s[..|d|] == d && s[|d|..] == t;
    forall j: nat | j < |x|
      ensures !OccursAt(t, d, j)
    {
      assert t[j] == x[j] && x[j] in x;
      if j + |d| <= |t| {
        assert t[j..j + |d|][0] == t[j];
      }
    }
    assert OccursAt(t, d, |x|);
    IndexOfIs(t, d, 0, |x|);
    assert t[..|x|] == x;
    assert CloseAt(t, d) == Some(|x|);
    assert s[|d|..|d| + |x|] == x;
    assert s[|d| + |x| + |d|..] == [];
  }

  // ---------------------------------------------------------------------
  // The paragraph rewrite `/\n\n/g`.

  /** The text starts with `"\n\n"`. */
  predicate PairAtHead(s: string) {
    |s| >= 2 && s[0] == '\n' && s[1] == '\n'
  }

  /** Each `"\n\n"`, scanning from the left without overlap, becomes `<br/>`. */
  function Breaks(s: string): (r: string)
    ensures s != [] ==> r != [] && (r[0] == '\n' ==> s[0] == '\n' && (|s| == 1 || s[1] != '\n'))
    decreases |s|
  {
    if s == [] then []
    else if PairAtHead(s) then "<br/>" + Breaks(s[2..])
    else [s[0]] + Breaks(s[1..])
  }

  /** No two newlines in a row survive. */
  lemma {:induction false} NoDoubleNewline(s: string)
    ensures !Contains(Breaks(s), "\n\n")
    decreases |s|
  {
    if s != [] {
      var r := Breaks(s);
      if PairAtHead(s) {
        NoDoubleNewline(s[2..]);
        NoNewlineNoPair("<br/>");
        NotAcross("<br/>", Breaks(s[2..]));
      } else {
        NoDoubleNewline(s[1..]);
        assert s[0] == '\n' ==> |s| == 1 || s[1] != '\n';
        assert !Contains([s[0]], "\n\n");
        NotAcross([s[0]], Breaks(s[1..]));
      }
    }
  }

  lemma NoNewlineNoPair(s: string)
    requires '\n' !in s
    ensures !Contains(s, "\n\n")
  {
    forall i: nat | i <= |s|
      ensures !OccursAt(s, "\n\n", i)
    {
      if i < |s| {
        assert s[i] in s;
      }
    }
  }

  /** Two texts without `"\n\n"` join without one unless a newline meets a newline. */
  lemma NotAcross(a: string, b: string)
    requires !Contains(a, "\n\n") && !Contains(b, "\n\n")
    requires a != [] && b != [] ==> a[|a| - 1] != '\n' || b[0] != '\n'
    ensures !Contains(a + b, "\n\n")
  {
    var s := a + b;
    forall i: nat | i <= |s|
      ensures !OccursAt(s, "\n\n", i)
    {
      if OccursAt(s, "\n\n", i) {
        assert s[i] == '\n' && s[i + 1] == '\n' by {
          assert s[i..i + 2] == "\n\n";
        }
        if i + 2 <= |a| {
          assert a[i..i + 2] == s[i..i + 2];
          assert OccursAt(a, "\n\n", i);
        } else if |a| <= i {
          assert b[i - |a|..i - |a| + 2] == s[i..i + 2];
          assert OccursAt(b, "\n\n", i - |a|);
        }
      }
    }
  }

  /** Text without `"\n\n"` is left as it is. */
  lemma {:induction false} BreaksUnchanged(s: string)
    requires !Contains(s, "\n\n")
    ensures Breaks(s) == s
    decreases |s|
  {
    if s != [] {
      assert !OccursAt(s, "\n\n", 0);
      assert !Contains(s[1..], "\n\n") by {
        if Contains(s[1..], "\n\n") {
          var i: nat :| i <= |s[1..]| && OccursAt(s[1..], "\n\n", i);
          assert i + 2 <= |s[1..]| && s[1..][i..i + 2] == "\n\n";
          assert s[i + 1..i + 3] == s[1..][i..i + 2];
          assert OccursAt(s, "\n\n", i + 1);
        }
      }
      BreaksUnchanged(s[1..]);
      assert s == [s[0]] + s[1..];
    }
  }

  /** Whether the scan sees a pair at the head does not depend on what follows a text ending in a non-newline. */
  lemma PairAtHeadAppend(a: string, t: string)
    requires a != [] && a[|a| - 1] != '\n'
    ensures PairAtHead(a + t) <==> PairAtHead(a)
  {
  }

  lemma DropOfAppend(a: string, t: string, k: nat)
    requires k <= |a|
    ensures (a + t)[k..] == a[k..] + t
  {
  }

  lemma BreaksAppendPair(a: string, t: string)
    requires PairAtHead(a)
    requires Breaks(a[2..] + t) == Breaks(a[2..]) + Breaks(t)
    ensures Breaks(a + t) == Breaks(a) + Breaks(t)
  {
    DropOfAppend(a, t, 2);
  }

  lemma BreaksAppendOne(a: string, t: string)
    requires a != [] && a[|a| - 1] != '\n' && !PairAtHead(a)
    requires Breaks(a[1..] + t) == Breaks(a[1..]) + Breaks(t)
    ensures Breaks(a + t) == Breaks(a) + Breaks(t)
  {
    PairAtHeadAppend(a, t);
    DropOfAppend(a, t, 1);
  }

  /** Text that does not end in a newline is rewritten on its own, whatever follows it. */
  lemma {:induction false} BreaksAppend(a: string, t: string)
    requires a == [] || a[|a| - 1] != '\n'
    ensures Breaks(a + t) == Breaks(a) + Breaks(t)
    decreases |a|
  {
    if a == [] {
      assert a + t == t;
    } else {
      var k := if PairAtHead(a) then 2 else 1;
      var rest := a[k..];
      assert rest == [] || rest[|rest| - 1] == a[|a| - 1];
      BreaksAppend(rest, t);
      if k == 2 {
        BreaksAppendPair(a, t);
      } else {
        BreaksAppendOne(a, t);
      }
    }
  }

  /** A `"\n\n"` that does not continue a newline becomes one `<br/>`, and both sides are rewritten on their own. */
  lemma BreaksSplit(a: string, b: string)
    requires a == [] || a[|a| - 1] != '\n'
    ensures Breaks(a + "\n\n" + b) == Breaks(a) + "<br/>" + Breaks(b)
  {
    var t := "\n\n" + b;
    assert a + "\n\n" + b == a + t;
    BreaksAppend(a, t);
    assert PairAtHead(t) && t[2..] == b;
  }

  // ---------------------------------------------------------------------
  // The whole conversion.

  /** The three heading rewrites, `#` first. */
  function Headings(s: string): string {
    RewriteLines(RewriteLines(RewriteLines(s, H1), H2), H3)
  }

  /** The bold rewrite, then the italic one. */
  function Emphasis(s: string): string {
    Delimited(Delimited(s, "**", "strong"), "*", "em")
  }

  function ListItems(s: string): string {
    RewriteLines(s, ListItem)
  }

  /** `markdownToHtml`: the seven replacements in their order. */
  function MarkdownToHtml(markdown: string): (html: string)
    ensures !Contains(html, "\n\n")
  {
    NoDoubleNewline(ListItems(Emphasis(Headings(markdown))));
    Breaks(ListItems(Emphasis(Headings(markdown))))
  }

  /** Text with no `#`, `*`, `-` or `"\n\n"` comes out unchanged; `<` is not escaped. */
  lemma PlainUnchanged(s: string)
    requires '#' !in s && '*' !in s && '-' !in s && !Contains(s, "\n\n")
    ensures MarkdownToHtml(s) == s
  {
    RewriteLinesUnchanged(s, H1);
    RewriteLinesUnchanged(s, H2);
    RewriteLinesUnchanged(s, H3);
    DelimitedUnchanged(s, "**", "strong");
    DelimitedUnchanged(s, "*", "em");
    RewriteLinesUnchanged(s, ListItem);
    BreaksUnchanged(s);
  }

  /** The text of a line with the heading and item rewrites that apply to it. */
  function LineHtml(line: string): string {
    if StartsWith(line, "# ") then H1.open + line[2..] + H1.close
    else if StartsWith(line, "## ") then H2.open + line[3..] + H2.close
    else if StartsWith(line, "### ") then H3.open + line[4..] + H3.close
    else if StartsWith(line, "- ") then ListItem.open + line[2..] + ListItem.close
    else line
  }

  /** `Plain` index by index, the form the solver checks cheaply on a literal. */
  predicate PlainAt(s: string) {
    forall i :: 0 <= i < |s| ==> s[i] != '*' && !IsBreak(s[i])
  }

  lemma PlainAtIsPlain(s: string)
    requires PlainAt(s)
    ensures Plain(s)
  {
    forall c | c in s
      ensures c != '*' && !IsBreak(c)
    {
      var i :| 0 <= i < |s| && s[i] == c;
    }
  }

  lemma H1IsPlain()
    ensures Plain(H1.open) && Plain(H1.close)
  {
    assert PlainAt(H1.open);
    assert PlainAt(H1.close);
    PlainAtIsPlain(H1.open);
    PlainAtIsPlain(H1.close);
  }

  lemma H2IsPlain()
    ensures Plain(H2.open) && Plain(H2.close)
  {
    assert PlainAt(H2.open);
    assert PlainAt(H2.close);
    PlainAtIsPlain(H2.open);
    PlainAtIsPlain(H2.close);
  }

  lemma H3IsPlain()
    ensures Plain(H3.open) && Plain(H3.close)
  {
    assert PlainAt(H3.open);
    assert PlainAt(H3.close);
    PlainAtIsPlain(H3.open);
    PlainAtIsPlain(H3.close);
  }

  lemma ListItemIsPlain()
    ensures Plain(ListItem.open) && Plain(ListItem.close)
  {
    assert PlainAt(ListItem.open);
    assert PlainAt(ListItem.close);
    PlainAtIsPlain(ListItem.open);
    PlainAtIsPlain(ListItem.close);
  }

  /** The rules add no line terminator and no `*`. */
  lemma RulesArePlain()
    ensures Plain(H1.open) && Plain(H1.close) && Plain(H2.open) && Plain(H2.close)
    ensures Plain(H3.open) && Plain(H3.close) && Plain(ListItem.open) && Plain(ListItem.close)
  {
    H1IsPlain();
    H2IsPlain();
    H3IsPlain();
    ListItemIsPlain();
  }

  lemma RewritePlainLine(line: string, rule: Rule)
    requires Plain(line) && Plain(rule.open) && Plain(rule.close)
    ensures Plain(RewriteLine(line, rule)) && RewriteLines(line, rule) == RewriteLine(line, rule)
  {
    OneLine(line, rule);
    if StartsWith(line, rule.prefix) {
      assert forall c :: c in line[|rule.prefix|..] ==> c in line;
    }
  }

  /** A line without `*` passes through the bold, italic and paragraph rewrites unchanged. */
  lemma PlainLineTail(s: string)
    requires Plain(s)
    ensures Breaks(ListItems(Emphasis(s))) == RewriteLine(s, ListItem)
  {
    DelimitedUnchanged(s, "**", "strong");
    DelimitedUnchanged(s, "*", "em");
    RulesArePlain();
    RewritePlainLine(s, ListItem);
    var li := RewriteLine(s, ListItem);
    NoNewlineNoPair(li);
    BreaksUnchanged(li);
  }

  /** A line opening with `<`, as every rewritten line does, starts with none of the prefixes. */
  lemma TagUnprefixed(s: string)
    requires s != [] && s[0] == '<'
    ensures !StartsWith(s, "# ") && !StartsWith(s, "## ") && !StartsWith(s, "### ") && !StartsWith(s, "- ")
  {
    assert forall p: string :: p != [] && StartsWith(s, p) ==> s[0] == s[..|p|][0] == p[0];
  }

  /** Rewriting a line with a rule yields a line that opens with the rule's tag. */
  lemma RewrittenOpensTag(line: string, rule: Rule)
    requires StartsWith(line, rule.prefix) && rule.open != [] && rule.open[0] == '<'
    ensures RewriteLine(line, rule) != [] && RewriteLine(line, rule)[0] == '<'
  {
  }

  /** The four line rewrites on one line: at most one of them applies. */
  lemma LineRules(line: string)
    ensures RewriteLine(RewriteLine(RewriteLine(RewriteLine(line, H1), H2), H3), ListItem) == LineHtml(line)
  {
    var r1 := RewriteLine(line, H1);
    var r2 := RewriteLine(r1, H2);
    var r3 := RewriteLine(r2, H3);
    if StartsWith(line, "# ") {
      RewrittenOpensTag(line, H1);
      TagUnprefixed(r1);
    } else if StartsWith(line, "## ") {
      RewrittenOpensTag(line, H2);
      TagUnprefixed(r2);
    } else if StartsWith(line, "### ") {
      assert !StartsWith(line, "## ") by { assert line[..3][2] == line[..4][2]; }
      RewrittenOpensTag(line, H3);
      TagUnprefixed(r3);
    }
  }

  /**
   * On one line without `*`: `# `, `## `, `### ` and `- ` lines become the
   * matching element, and a `## ` line is never made `<h1>`.
   */
  lemma HeadingLine(line: string)
    requires Plain(line)
    ensures MarkdownToHtml(line) == LineHtml(line)
  {
    RulesArePlain();
    RewritePlainLine(line, H1);
    var h1 := RewriteLine(line, H1);
    RewritePlainLine(h1, H2);
    var h2 := RewriteLine(h1, H2);
    RewritePlainLine(h2, H3);
    PlainLineTail(RewriteLine(h2, H3));
    LineRules(line);
  }

  /** A line whose first character is not the prefix's first is not rewritten. */
  lemma Unprefixed(s: string, rule: Rule)
    requires s != [] && rule.prefix != [] && s[0] != rule.prefix[0]
    ensures RewriteLine(s, rule) == s
  {
  }

  /** `**x**`, alone on its line, is untouched by the heading rewrites. */
  lemma BoldLineHeadings(x: string)
    requires Plain(x)
    ensures Headings("**" + x + "**") == "**" + x + "**"
  {
    var s := "**" + x + "**";
    assert s[0] == '*';
    assert NoBreak(s);
    OneLine(s, H1);
    Unprefixed(s, H1);
    OneLine(s, H2);
    Unprefixed(s, H2);
    OneLine(s, H3);
    Unprefixed(s, H3);
  }

  /** `<strong>x</strong>` on one line: the text `**x**` turns into. */
  lemma StrongIsPlainLine(x: string)
    requires Plain(x)
    ensures Plain("<strong>" + x + "</strong>")
  {
    assert PlainAt("<strong>") && PlainAt("</strong>");
    PlainAtIsPlain("<strong>");
    PlainAtIsPlain("</strong>");
  }

  /** The bold rewrite turns `**x**` into `<strong>x</strong>`, which the italic rewrite leaves alone. */
  lemma BoldLineEmphasis(x: string)
    requires Plain(x)
    ensures Emphasis("**" + x + "**") == "<strong>" + x + "</strong>"
  {
    DelimitedPair(x, "**", "strong");
    var strong := "<strong>" + x + "</strong>";
    assert "<" + "strong" + ">" + x + "</" + "strong" + ">" == strong;
    StrongIsPlainLine(x);
    DelimitedUnchanged(strong, "*", "em");
  }

  /** A line opening with a tag, with no `*` and no terminator, passes the last two rewrites unchanged. */
  lemma TagLineTail(s: string)
    requires Plain(s) && s != [] && s[0] == '<'
    ensures Breaks(ListItems(s)) == s
  {
    OneLine(s, ListItem);
    Unprefixed(s, ListItem);
    NoNewlineNoPair(s);
    BreaksUnchanged(s);
  }

  /** `**x**` becomes `<strong>x</strong>`, not a pair of empty `<em>`: the bold rewrite runs first. */
  lemma StrongBeforeEmphasis(x: string)
    requires Plain(x)
    ensures MarkdownToHtml("**" + x + "**") == "<strong>" + x + "</strong>"
  {
    BoldLineHeadings(x);
    BoldLineEmphasis(x);
    StrongIsPlainLine(x);
    TagLineTail("<strong>" + x + "</strong>");
  }
}
