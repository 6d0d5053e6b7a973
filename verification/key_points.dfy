/**
 * `parseKeyPoints`: sorts the bullet lines of a key-points analysis into four
 * fixed sections. A line naming a section selects it; a bullet line adds its
 * text to the selected section; every other line is ignored.
 */
module KeyPoints {
  import opened Common
  import opened Text

  /** The four sections, in the order they are declared and checked. */
  datatype Kind = Concepts | Definitions | Points | Formulas

  /** The position of a section in the priority order of the keyword checks. */
  function Rank(k: Kind): nat {
    match k
    case Concepts => 0
    case Definitions => 1
    case Points => 2
    case Formulas => 3
  }

  /** The title of a section, which is also the keyword that selects it. */
  function Heading(k: Kind): string {
    match k
    case Concepts => "Concepts Clés"
    case Definitions => "Définitions"
    case Points => "Points à Retenir"
    case Formulas => "Formules/Méthodes"
  }

  function Emoji(k: Kind): string {
    match k
    case Concepts => "\U{1F3AF}"
    case Definitions => "\U{1F4DA}"
    case Points => "\U{1F4A1}"
    case Formulas => "\U{1F4CB}"
  }

  datatype Section = Section(title: string, emoji: string, items: seq<string>)

  /** The record of the four sections the parser returns. */
  datatype Sections = Sections(concepts: Section, definitions: Section, points: Section, formulas: Section)
  {
    function Get(k: Kind): Section {
      match k
      case Concepts => concepts
      case Definitions => definitions
      case Points => points
      case Formulas => formulas
    }
  }

  function EmptySection(k: Kind): Section {
    Section(Heading(k), Emoji(k), [])
  }

  const Empty := Sections(EmptySection(Concepts), EmptySection(Definitions), EmptySection(Points), EmptySection(Formulas))

  /** `sections[k].items.push(item)`. */
  function Push(ss: Sections, k: Kind, item: string): (r: Sections)
    ensures r.Get(k) == ss.Get(k).(items := ss.Get(k).items + [item])
    ensures forall j :: j != k ==> r.Get(j) == ss.Get(j)
  {
    match k
    case Concepts => ss.(concepts := ss.concepts.(items := ss.concepts.items + [item]))
    case Definitions => ss.(definitions := ss.definitions.(items := ss.definitions.items + [item]))
    case Points => ss.(points := ss.points.(items := ss.points.items + [item]))
    case Formulas => ss.(formulas := ss.formulas.(items := ss.formulas.items + [item]))
  }

  /** The section a line selects: the first, in priority order, whose keyword it contains. */
  function KeywordOf(line: string): (r: Option<Kind>)
    ensures r.Some? ==> Contains(line, Heading(r.value))
  {
    if Contains(line, Heading(Concepts)) then Some(Concepts)
    else if Contains(line, Heading(Definitions)) then Some(Definitions)
    else if Contains(line, Heading(Points)) then Some(Points)
    else if Contains(line, Heading(Formulas)) then Some(Formulas)
    else None
  }

  /** A line selects the highest-priority section whose keyword it contains, and none if it contains none. */
  lemma KeywordPriority(line: string)
    ensures KeywordOf(line).Some? ==>
      forall j :: Rank(j) < Rank(KeywordOf(line).value) ==> !Contains(line, Heading(j))
    ensures KeywordOf(line).None? <==> forall j :: !Contains(line, Heading(j))
  {
  }

  /** `line.trim().startsWith("- ")`. */
  predicate IsBullet(line: string) {
    StartsWith(Trim(line), "- ")
  }

  /** `line.trim().substring(2)`. */
  function BulletText(line: string): string
    requires IsBullet(line)
  {
    Trim(line)[2..]
  }

  /** What a line does to the parse: select a section, add an item, or nothing. */
  datatype LineKind = Selects(section: Kind) | Item(text: string) | Ignored

  /** The tests of the `forEach` callback, in their order. */
  function Classify(line: string): (r: LineKind)
    ensures r.Selects? ==> Contains(line, Heading(r.section))
    ensures r.Selects? ==> forall j :: Rank(j) < Rank(r.section) ==> !Contains(line, Heading(j))
    ensures !r.Selects? ==> forall j :: !Contains(line, Heading(j))
    ensures r.Item? <==> !r.Selects? && IsBullet(line)
    ensures r.Item? ==> r.text == Trim(line)[2..]
  {
    KeywordPriority(line);
    match KeywordOf(line)
    case Some(k) => Selects(k)
    case None => if IsBullet(line) then Item(BulletText(line)) else Ignored
  }

  /** The selected section (`currentSection`, with `""` as `None`) and the sections so far. */
  datatype State = State(current: Option<Kind>, sections: Sections)

  const Start := State(None, Empty)

  /** The effect of one line: a keyword selects its section; an item goes to the selected one. */
  function Step(st: State, c: LineKind): (r: State)
    ensures c.Selects? ==> r == State(Some(c.section), st.sections)
    ensures c.Ignored? ==> r == st
    ensures !c.Item? || st.current.None? ==> r.sections == st.sections
    ensures c.Item? && st.current.Some? ==>
      r.current == st.current && r.sections == Push(st.sections, st.current.value, c.text)
  {
    match c
    case Selects(k) => st.(current := Some(k))
    case Item(text) => if st.current.Some? then st.(sections := Push(st.sections, st.current.value, text)) else st
    case Ignored => st
  }

  /** The lines, classified, visited in order from no section selected and four empty sections. */
  function Run(cs: seq<LineKind>): (st: State)
    ensures forall k :: st.sections.Get(k).title == Heading(k) && st.sections.Get(k).emoji == Emoji(k)
    decreases |cs|
  {
    if cs == [] then Start else Step(Run(cs[..|cs| - 1]), cs[|cs| - 1])
  }

  function Classes(lines: seq<string>): (cs: seq<LineKind>)
    ensures |cs| == |lines|
  {
    seq(|lines|, i requires 0 <= i < |lines| => Classify(lines[i]))
  }

  /** `parseKeyPoints`: each section holds the bullets written below its title, in order. */
  function ParseKeyPoints(markdown: string): (r: Sections)
    ensures forall k :: r.Get(k).title == Heading(k) && r.Get(k).emoji == Emoji(k)
    ensures forall k :: r.Get(k).items == ItemsOf(Classes(Lines(markdown)), k)
  {
    ItemsInOrder(Classes(Lines(markdown)));
    Run(Classes(Lines(markdown))).sections
  }

  // ---------------------------------------------------------------------
  // Reference definitions and the lemmas relating them to the parser.

  /** Line `i` selects `k` and no later line selects any section. */
  predicate LastKeywordAt(cs: seq<LineKind>, i: nat, k: Kind) {
    && i < |cs| && cs[i] == Selects(k)
    && forall j :: i < j < |cs| ==> !cs[j].Selects?
  }

  predicate NoKeyword(cs: seq<LineKind>) {
    forall i :: 0 <= i < |cs| ==> !cs[i].Selects?
  }

  /** No section is selected exactly when no line names one. */
  lemma {:induction false} NoneSelected(cs: seq<LineKind>)
    ensures Run(cs).current.None? <==> NoKeyword(cs)
    decreases |cs|
  {
    if cs != [] {
      var init := cs[..|cs| - 1];
      NoneSelected(init);
      assert forall i :: 0 <= i < |init| ==> cs[i] == init[i];
    }
  }

  /** The last keyword line selects the section. */
  lemma {:induction false} SelectedByLastKeyword(cs: seq<LineKind>, i: nat, k: Kind)
    requires LastKeywordAt(cs, i, k)
    ensures Run(cs).current == Some(k)
    decreases |cs|
  {
    var n := |cs| - 1;
    if i < n {
      var init := cs[..n];
      assert LastKeywordAt(init, i, k);
      SelectedByLastKeyword(init, i, k);
    }
  }

  /** A selected section is named by the last keyword line. */
  lemma {:induction false} SelectedIsLastKeyword(cs: seq<LineKind>)
    requires Run(cs).current.Some?
    ensures exists i :: LastKeywordAt(cs, i, Run(cs).current.value)
    decreases |cs|
  {
    var n := |cs| - 1;
    var k := Run(cs).current.value;
    if cs[n].Selects? {
      assert LastKeywordAt(cs, n, k);
    } else {
      var init := cs[..n];
      SelectedIsLastKeyword(init);
      var i :| LastKeywordAt(init, i, k);
      assert LastKeywordAt(cs, i, k);
    }
  }

  /** With no keyword line, every section stays empty. */
  lemma {:induction false} NoKeywordNoItems(cs: seq<LineKind>)
    requires NoKeyword(cs)
    ensures Run(cs) == Start
    decreases |cs|
  {
    if cs != [] {
      NoKeywordNoItems(cs[..|cs| - 1]);
    }
  }

  /** Lines before the first keyword line, bullets included, change nothing. */
  lemma {:induction false} DroppedBeforeKeyword(a: seq<LineKind>, b: seq<LineKind>)
    requires NoKeyword(a)
    ensures Run(a + b) == Run(b)
    decreases |b|
  {
    if b == [] {
      assert a + b == a;
      NoKeywordNoItems(a);
    } else {
      var init := b[..|b| - 1];
      DroppedBeforeKeyword(a, init);
      assert (a + b)[..|a + b| - 1] == a + init;
    }
  }

  /** Every item of every section comes from an item line. */
  lemma {:induction false} ItemsComeFromLines(cs: seq<LineKind>, k: Kind, item: string)
    requires item in Run(cs).sections.Get(k).items
    ensures exists i :: 0 <= i < |cs| && cs[i] == Item(item)
    decreases |cs|
  {
    var n := |cs| - 1;
    var init := cs[..n];
    if item in Run(init).sections.Get(k).items {
      ItemsComeFromLines(init, k, item);
      var i :| 0 <= i < |init| && init[i] == Item(item);
      assert cs[i] == init[i];
    } else {
      assert cs[n] == Item(item);
    }
  }

  /** Every parsed item is the trimmed text of a bullet line naming no section, without its `- `. */
  lemma ParsedItemsAreBullets(markdown: string, k: Kind, item: string)
    requires item in ParseKeyPoints(markdown).Get(k).items
    ensures exists line :: && line in Lines(markdown) && IsBullet(line) && item == Trim(line)[2..]
                           && forall j :: !Contains(line, Heading(j))
  {
    var lines := Lines(markdown);
    ItemsComeFromLines(Classes(lines), k, item);
    var i :| 0 <= i < |lines| && Classes(lines)[i] == Item(item);
    assert Classify(lines[i]) == Item(item);
    assert lines[i] in lines;
  }

  /** The number of item lines that follow some keyword line. */
  function CountItems(cs: seq<LineKind>): nat
    decreases |cs|
  {
    if cs == [] then 0
    else
      var init := cs[..|cs| - 1];
      CountItems(init) + (if cs[|cs| - 1].Item? && !NoKeyword(init) then 1 else 0)
  }

  function Total(ss: Sections): nat {
    |ss.concepts.items| + |ss.definitions.items| + |ss.points.items| + |ss.formulas.items|
  }

  /** Exactly the item lines after the first keyword line become items: none is lost or doubled. */
  lemma {:induction false} TotalItems(cs: seq<LineKind>)
    ensures Total(Run(cs).sections) == CountItems(cs)
    decreases |cs|
  {
    if cs != [] {
      var init := cs[..|cs| - 1];
      TotalItems(init);
      NoneSelected(init);
      var ss := Run(init).sections;
      if cs[|cs| - 1].Item? && Run(init).current.Some? {
        var r := Push(ss, Run(init).current.value, cs[|cs| - 1].text);
        assert Total(r) == Total(ss) + 1 by {
          match Run(init).current.value
          case Concepts => assert r.definitions == ss.definitions && r.points == ss.points && r.formulas == ss.formulas;
          case Definitions => assert r.concepts == ss.concepts && r.points == ss.points && r.formulas == ss.formulas;
          case Points => assert r.concepts == ss.concepts && r.definitions == ss.definitions && r.formulas == ss.formulas;
          case Formulas => assert r.concepts == ss.concepts && r.definitions == ss.definitions && r.points == ss.points;
        }
      }
    }
  }

  /** The section the last keyword line names, read from the end of the lines. */
  function LastKeyword(cs: seq<LineKind>): Option<Kind>
    decreases |cs|
  {
    if cs == [] then None
    else if cs[|cs| - 1].Selects? then Some(cs[|cs| - 1].section)
    else LastKeyword(cs[..|cs| - 1])
  }

  /** The texts of the item lines whose latest keyword line above them names `k`, in line order. */
  function ItemsOf(cs: seq<LineKind>, k: Kind): seq<string>
    decreases |cs|
  {
    if cs == [] then []
    else
      var init := cs[..|cs| - 1];
      var c := cs[|cs| - 1];
      ItemsOf(init, k) + (if c.Item? && LastKeyword(init) == Some(k) then [c.text] else [])
  }

  /**
   * Each section holds exactly the items written under its keyword, in their
   * input order, and the selected section is the one the last keyword names.
   */
  lemma {:induction false} ItemsInOrder(cs: seq<LineKind>)
    ensures Run(cs).current == LastKeyword(cs)
    ensures forall k :: Run(cs).sections.Get(k).items == ItemsOf(cs, k)
    decreases |cs|
  {
    if cs != [] {
      var init := cs[..|cs| - 1];
      var c := cs[|cs| - 1];
      ItemsInOrder(init);
      var st := Run(init);
      forall k
        ensures Run(cs).sections.Get(k).items == ItemsOf(cs, k)
      {
        if c.Item? && st.current.Some? {
          var r := Push(st.sections, st.current.value, c.text);
          assert Run(cs).sections == r;
        }
      }
    }
  }
}
