/**
 * `parseMarkdownToHierarchy`: reads a markdown outline into a tree of at
 * most three levels below the root. `# ` names the root, `## ` opens a
 * level-1 node, `### ` a level-2 node under the current level-1 node, and
 * `- ` adds a detail to the deepest open node.
 */
module MindMap {
  import opened Common
  import opened Text

  /** A mind-map node; a detail's absent `children` is the empty sequence. */
  datatype Node = Node(name: string, children: seq<Node>)

  const DefaultRootName := "Concept Principal"

  /** No path from `n` down to a leaf is longer than `d` edges. */
  predicate DepthAtMost(n: Node, d: nat)
    decreases n
  {
    if d == 0 then n.children == []
    else forall c :: c in n.children ==> DepthAtMost(c, d - 1)
  }

  /**
   * The parser's state: the root's name, the level-1 nodes in order, and
   * whether a level-2 node is open. The open level-1 node is always the last
   * section, and an open level-2 node is always that section's last child.
   */
  datatype Builder = Builder(rootName: string, sections: seq<Node>, inSubsection: bool)

  predicate WellFormed(b: Builder) {
    && (forall s :: s in b.sections ==> DepthAtMost(s, 2))
    && (b.inSubsection ==> |b.sections| > 0 && |b.sections[|b.sections| - 1].children| > 0)
  }

  const Start := Builder(DefaultRootName, [], false)

  /** `children.push(child)` on the last element of `nodes`. */
  function AddToLast(nodes: seq<Node>, child: Node): (r: seq<Node>)
    requires |nodes| > 0
    ensures |r| == |nodes| && r[..|r| - 1] == nodes[..|nodes| - 1]
    ensures r[|r| - 1] == nodes[|nodes| - 1].(children := nodes[|nodes| - 1].children + [child])
  {
    var last := nodes[|nodes| - 1];
    nodes[..|nodes| - 1] + [last.(children := last.children + [child])]
  }

  lemma AddLeafKeepsDepth(n: Node, leaf: Node, d: nat)
    requires d >= 1 && DepthAtMost(n, d) && leaf.children == []
    ensures DepthAtMost(n.(children := n.children + [leaf]), d)
  {
    var m := n.(children := n.children + [leaf]);
    forall c | c in m.children
      ensures DepthAtMost(c, d - 1)
    {
      if c !in n.children {
        assert c == leaf;
      }
    }
  }

  lemma AddShallowKeepsDepth(n: Node, child: Node)
    requires DepthAtMost(n, 2) && DepthAtMost(child, 1)
    ensures DepthAtMost(n.(children := n.children + [child]), 2)
  {
    var m := n.(children := n.children + [child]);
    forall c | c in m.children
      ensures DepthAtMost(c, 1)
    {
      if c !in n.children {
        assert c == child;
      }
    }
  }

  /** The name of each node of a sequence. */
  function Names(nodes: seq<Node>): seq<string> {
    seq(|nodes|, i requires 0 <= i < |nodes| => nodes[i].name)
  }

  /** `## `: a new level-1 node becomes current and no level-2 node is open. */
  function OpenSection(b: Builder, name: string): (r: Builder)
    requires WellFormed(b)
    ensures WellFormed(r) && r.rootName == b.rootName && !r.inSubsection
    ensures r.sections == b.sections + [Node(name, [])]
    ensures Names(r.sections) == Names(b.sections) + [name]
  {
    var r := Builder(b.rootName, b.sections + [Node(name, [])], false);
    assert forall s :: s in r.sections ==> s in b.sections || s == Node(name, []);
    r
  }

  /** `### ` under the current level-1 node: the new level-2 node becomes current. */
  function OpenSubsection(b: Builder, name: string): (r: Builder)
    requires WellFormed(b) && |b.sections| > 0
    ensures WellFormed(r) && r.rootName == b.rootName && r.inSubsection
    ensures r.sections == AddToLast(b.sections, Node(name, []))
    ensures Names(r.sections) == Names(b.sections)
  {
    var section := b.sections[|b.sections| - 1];
    AddShallowKeepsDepth(section, Node(name, []));
    var r := b.(sections := AddToLast(b.sections, Node(name, [])), inSubsection := true);
    assert forall s :: s in r.sections ==> s in b.sections[..|b.sections| - 1] || s == r.sections[|r.sections| - 1];
    r
  }

  /** `- ` with a level-2 node open: the detail goes to that node. */
  function AddDetailToSubsection(b: Builder, name: string): (r: Builder)
    requires WellFormed(b) && b.inSubsection
    ensures WellFormed(r) && r.rootName == b.rootName && r.inSubsection
    ensures var last := b.sections[|b.sections| - 1];
      r.sections == b.sections[..|b.sections| - 1] + [last.(children := AddToLast(last.children, Node(name, [])))]
    ensures Names(r.sections) == Names(b.sections)
  {
    var detail := Node(name, []);
    var section := b.sections[|b.sections| - 1];
    assert section in b.sections;
    var n := |section.children|;
    var sub := section.children[n - 1];
    assert sub in section.children;
    AddLeafKeepsDepth(sub, detail, 1);
    var sub' := sub.(children := sub.children + [detail]);
    var section' := section.(children := AddToLast(section.children, detail));
    assert section'.children == section.children[..n - 1] + [sub'];
    assert DepthAtMost(section', 2) by {
      forall c | c in section'.children
        ensures DepthAtMost(c, 1)
      {
        if c in section.children[..n - 1] {
          assert c in section.children;
        }
      }
    }
    var r := b.(sections := b.sections[..|b.sections| - 1] + [section']);
    assert forall s :: s in r.sections ==> s in b.sections[..|b.sections| - 1] || s == section';
    r
  }

  /** `- ` with only a level-1 node open: the detail goes to that node. */
  function AddDetailToSection(b: Builder, name: string): (r: Builder)
    requires WellFormed(b) && |b.sections| > 0
    ensures WellFormed(r) && r.rootName == b.rootName && r.inSubsection == b.inSubsection
    ensures r.sections == AddToLast(b.sections, Node(name, []))
    ensures Names(r.sections) == Names(b.sections)
  {
    var section := b.sections[|b.sections| - 1];
    AddLeafKeepsDepth(section, Node(name, []), 2);
    var r := b.(sections := AddToLast(b.sections, Node(name, [])));
    assert forall s :: s in r.sections ==> s in b.sections[..|b.sections| - 1] || s == r.sections[|r.sections| - 1];
    r
  }

  /** What the chain of `startsWith` tests makes of a line, tried in this order. */
  datatype Marker = Title | Section | Subsection | Detail | Plain

  function MarkerOf(line: string): Marker {
    if StartsWith(line, "# ") then Title
    else if StartsWith(line, "## ") then Section
    else if StartsWith(line, "### ") then Subsection
    else if StartsWith(line, "- ") then Detail
    else Plain
  }

  /** Each marker is its prefix; a line that starts with neither `#` nor `-` is plain. */
  lemma MarkerOfPrefix(line: string)
    ensures MarkerOf(line) == Title <==> StartsWith(line, "# ")
    ensures MarkerOf(line) == Section <==> StartsWith(line, "## ")
    ensures MarkerOf(line) == Subsection <==> StartsWith(line, "### ")
    ensures MarkerOf(line) == Detail <==> StartsWith(line, "- ")
    ensures line == [] || (line[0] != '#' && line[0] != '-') ==> MarkerOf(line) == Plain
  {
    if StartsWith(line, "## ") || StartsWith(line, "### ") {
      assert line[1] == line[..3][1] == '#';
    }
    if StartsWith(line, "### ") {
      assert line[2] == line[..4][2] == '#';
    }
    if StartsWith(line, "# ") || StartsWith(line, "- ") {
      assert line[0] == line[..2][0];
    }
    if StartsWith(line, "## ") {
      assert line[0] == line[..3][0];
    }
    if StartsWith(line, "### ") {
      assert line[0] == line[..4][0];
    }
  }

  /** The text after the marker, trimmed: the node's name. */
  function MarkedName(line: string, m: Marker): string {
    match m
    case Title => if |line| >= 2 then Trim(line[2..]) else ""
    case Section => if |line| >= 3 then Trim(line[3..]) else ""
    case Subsection => if |line| >= 4 then Trim(line[4..]) else ""
    case Detail => if |line| >= 2 then Trim(line[2..]) else ""
    case Plain => ""
  }

  /** What a line marked `m` does, with `name` the text after its marker. */
  function Act(b: Builder, m: Marker, name: string): (r: Builder)
    requires WellFormed(b)
    ensures WellFormed(r)
    ensures m == Title ==> r == b.(rootName := name)
    ensures m != Title ==> r.rootName == b.rootName
    ensures m == Section ==> r.sections == b.sections + [Node(name, [])] && !r.inSubsection
    ensures m == Section ==> Names(r.sections) == Names(b.sections) + [name]
    ensures m != Section ==> Names(r.sections) == Names(b.sections)
    ensures m == Subsection && |b.sections| == 0 ==> r == b
    ensures m == Subsection && |b.sections| > 0 ==>
      r.sections == AddToLast(b.sections, Node(name, [])) && r.inSubsection
    ensures m == Detail && b.inSubsection ==>
      var last := b.sections[|b.sections| - 1];
      r.sections == b.sections[..|b.sections| - 1] + [last.(children := AddToLast(last.children, Node(name, [])))]
      && r.inSubsection
    ensures m == Detail && !b.inSubsection && |b.sections| > 0 ==>
      r.sections == AddToLast(b.sections, Node(name, [])) && !r.inSubsection
    ensures m == Detail && !b.inSubsection && |b.sections| == 0 ==> r == b
    ensures m == Plain ==> r == b
  {
    match m
    case Title => b.(rootName := name)
    case Section => OpenSection(b, name)
    case Subsection => if |b.sections| == 0 then b else OpenSubsection(b, name)
    case Detail =>
      if b.inSubsection then AddDetailToSubsection(b, name)
      else if |b.sections| > 0 then AddDetailToSection(b, name)
      else b
    case Plain => b
  }

  /** One non-blank line. The markers are matched on the line as written; names are trimmed. */
  function Step(b: Builder, line: string): (r: Builder)
    requires WellFormed(b)
    ensures WellFormed(r)
    ensures MarkerOf(line) == Title ==> r == b.(rootName := MarkedName(line, Title))
    ensures MarkerOf(line) != Title ==> r.rootName == b.rootName
    ensures MarkerOf(line) == Section ==>
      r.sections == b.sections + [Node(MarkedName(line, Section), [])] && !r.inSubsection
    ensures MarkerOf(line) == Section ==> Names(r.sections) == Names(b.sections) + [MarkedName(line, Section)]
    ensures MarkerOf(line) != Section ==> Names(r.sections) == Names(b.sections)
    ensures MarkerOf(line) == Subsection && |b.sections| == 0 ==> r == b
    ensures MarkerOf(line) == Subsection && |b.sections| > 0 ==>
      r.sections == AddToLast(b.sections, Node(MarkedName(line, Subsection), [])) && r.inSubsection
    ensures MarkerOf(line) == Detail && b.inSubsection ==>
      var last := b.sections[|b.sections| - 1];
      r.sections == b.sections[..|b.sections| - 1] + [last.(children := AddToLast(last.children, Leaf(line)))]
      && r.inSubsection
    ensures MarkerOf(line) == Detail && !b.inSubsection && |b.sections| > 0 ==>
      r.sections == AddToLast(b.sections, Leaf(line)) && !r.inSubsection
    ensures MarkerOf(line) == Detail && !b.inSubsection && |b.sections| == 0 ==> r == b
    ensures MarkerOf(line) == Plain ==> r == b
  {
    Act(b, MarkerOf(line), MarkedName(line, MarkerOf(line)))
  }

  /** The leaf a `- ` line adds. */
  function Leaf(line: string): Node {
    Node(MarkedName(line, Detail), [])
  }

  /** The lines `forEach` visits, in order, starting from the initial state. */
  function Build(lines: seq<string>): (b: Builder)
    ensures WellFormed(b)
    decreases |lines|
  {
    if lines == [] then Start else Step(Build(lines[..|lines| - 1]), lines[|lines| - 1])
  }

  /** `markdown.split("\n").filter((line) => line.trim() !== "")`. */
  function NonBlank(lines: seq<string>): (r: seq<string>)
    ensures |r| <= |lines|
    decreases |lines|
  {
    if lines == [] then []
    else
      var rest := NonBlank(lines[..|lines| - 1]);
      if Trim(lines[|lines| - 1]) != "" then rest + [lines[|lines| - 1]] else rest
  }

  /** The lines kept are exactly the lines that are not blank. */
  lemma {:induction false} NonBlankKeeps(lines: seq<string>)
    ensures forall line :: line in NonBlank(lines) <==> line in lines && Trim(line) != ""
    decreases |lines|
  {
    if lines != [] {
      var init := lines[..|lines| - 1];
      NonBlankKeeps(init);
      assert lines == init + [lines[|lines| - 1]];
    }
  }

  /** `parseMarkdownToHierarchy`. */
  function Parse(markdown: string): (root: Node)
    ensures DepthAtMost(root, 3)
  {
    var b := Build(NonBlank(Lines(markdown)));
    Node(b.rootName, b.sections)
  }

  // ---------------------------------------------------------------------
  // Reference definitions and the lemmas relating them to the parser.

  /** The trimmed titles of the `## ` lines, in order. */
  function SectionTitles(lines: seq<string>): seq<string>
    decreases |lines|
  {
    if lines == [] then []
    else
      var rest := SectionTitles(lines[..|lines| - 1]);
      var line := lines[|lines| - 1];
      if MarkerOf(line) == Section then rest + [MarkedName(line, Section)] else rest
  }

  /** The trimmed title of the last `# ` line, if any. */
  function LastTitle(lines: seq<string>): Option<string>
    decreases |lines|
  {
    if lines == [] then None
    else
      var line := lines[|lines| - 1];
      if MarkerOf(line) == Title then Some(MarkedName(line, Title)) else LastTitle(lines[..|lines| - 1])
  }

  /** The root's children are the `## ` lines, one each, in order, with their trimmed titles. */
  lemma {:induction false} SectionsAreSecondLevelLines(lines: seq<string>)
    ensures Names(Build(lines).sections) == SectionTitles(lines)
    decreases |lines|
  {
    if lines != [] {
      var init := lines[..|lines| - 1];
      var line := lines[|lines| - 1];
      SectionsAreSecondLevelLines(init);
    }
  }

  /** The root is named by the last `# ` line, or keeps its default name. */
  lemma {:induction false} RootNameIsLastTitle(lines: seq<string>)
    ensures Build(lines).rootName == LastTitle(lines).GetOr(DefaultRootName)
    decreases |lines|
  {
    if lines != [] {
      RootNameIsLastTitle(lines[..|lines| - 1]);
    }
  }

  /** A blank line never matches a prefix, so filtering blank lines changes nothing. */
  lemma BlankLineIsInert(b: Builder, line: string)
    requires WellFormed(b) && Trim(line) == ""
    ensures Step(b, line) == b
  {
    assert AllSpace(line);
    if line != [] {
      assert IsSpace(line[0]);
      assert line[0] != '#' && line[0] != '-';
    }
    MarkerOfPrefix(line);
  }

  lemma {:induction false} BlankLinesAreInert(lines: seq<string>)
    ensures Build(NonBlank(lines)) == Build(lines)
    decreases |lines|
  {
    if lines != [] {
      var init := lines[..|lines| - 1];
      BlankLinesAreInert(init);
      if Trim(lines[|lines| - 1]) == "" {
        BlankLineIsInert(Build(init), lines[|lines| - 1]);
      } else {
        assert NonBlank(lines)[..|NonBlank(lines)| - 1] == NonBlank(init);
      }
    }
  }

  /** The number of root children equals the number of `## ` lines of the text. */
  lemma SectionCount(markdown: string)
    ensures |Parse(markdown).children| == |SectionTitles(Lines(markdown))|
  {
    var lines := Lines(markdown);
    BlankLinesAreInert(lines);
    SectionsAreSecondLevelLines(lines);
  }

  // ---------------------------------------------------------------------
  // What one section holds.

  /** Some line of a section's body opens a level-2 node. */
  predicate HasSubsection(body: seq<string>) {
    exists i :: 0 <= i < |body| && MarkerOf(body[i]) == Subsection
  }

  lemma HasSubsectionSnoc(init: seq<string>, line: string)
    ensures HasSubsection(init + [line]) <==> HasSubsection(init) || MarkerOf(line) == Subsection
  {
    var body := init + [line];
    assert body[|init|] == line;
    if HasSubsection(body) && MarkerOf(line) != Subsection {
      var i :| 0 <= i < |body| && MarkerOf(body[i]) == Subsection;
      assert init[i] == body[i];
    }
    if HasSubsection(init) {
      var i :| 0 <= i < |init| && MarkerOf(init[i]) == Subsection;
      assert body[i] == init[i];
    }
  }

  /**
   * The children of a level-1 node, read from the lines after its `## ` line
   * alone: a `### ` line adds a level-2 node, and a `- ` line adds a leaf to
   * the latest level-2 node if there is one, else to the section itself.
   */
  function SectionChildren(body: seq<string>): (cs: seq<Node>)
    ensures HasSubsection(body) ==> |cs| > 0
    decreases |body|
  {
    if body == [] then []
    else
      var init := body[..|body| - 1];
      var line := body[|body| - 1];
      var cs := SectionChildren(init);
      assert body == init + [line];
      HasSubsectionSnoc(init, line);
      match MarkerOf(line)
      case Subsection => cs + [Node(MarkedName(line, Subsection), [])]
      case Detail =>
        if HasSubsection(init) then AddToLast(cs, Leaf(line))
        else cs + [Leaf(line)]
      case _ => cs
  }

  /** One more line of a section's body, as `SectionChildren` reads it. */
  lemma ChildrenAfterSubsection(init: seq<string>, line: string)
    requires MarkerOf(line) == Subsection
    ensures SectionChildren(init + [line]) == SectionChildren(init) + [Node(MarkedName(line, Subsection), [])]
  {
    var body := init + [line];
    assert body[..|body| - 1] == init;
    assert body[|body| - 1] == line;
  }

  lemma ChildrenAfterDetail(init: seq<string>, line: string)
    requires MarkerOf(line) == Detail
    ensures HasSubsection(init) ==> SectionChildren(init + [line]) == AddToLast(SectionChildren(init), Leaf(line))
    ensures !HasSubsection(init) ==> SectionChildren(init + [line]) == SectionChildren(init) + [Leaf(line)]
  {
    var body := init + [line];
    assert body[..|body| - 1] == init;
    assert body[|body| - 1] == line;
  }

  lemma ChildrenAfterOther(init: seq<string>, line: string)
    requires MarkerOf(line) != Subsection && MarkerOf(line) != Detail
    ensures SectionChildren(init + [line]) == SectionChildren(init)
  {
    var body := init + [line];
    assert body[..|body| - 1] == init;
    assert body[|body| - 1] == line;
  }

  /** One more line of the whole text, as `Build` reads it. */
  lemma BuildSnoc(init: seq<string>, line: string)
    ensures Build(init + [line]) == Step(Build(init), line)
  {
    var lines := init + [line];
    assert lines[..|lines| - 1] == init;
    assert lines[|lines| - 1] == line;
  }

  lemma AddToLastAppend(nodes: seq<Node>, last: Node, child: Node)
    ensures AddToLast(nodes + [last], child) == nodes + [last.(children := last.children + [child])]
  {
    assert (nodes + [last])[..|nodes|] == nodes;
  }

  /**
   * A section's children depend only on the lines between its `## ` line and
   * the next one, and are what `SectionChildren` reads from them.
   */
  lemma {:induction false} SectionIsLocal(pre: seq<string>, head: string, body: seq<string>)
    requires MarkerOf(head) == Section
    requires forall i :: 0 <= i < |body| ==> MarkerOf(body[i]) != Section
    ensures Build(pre + [head] + body).sections ==
      Build(pre).sections + [Node(MarkedName(head, Section), SectionChildren(body))]
    ensures Build(pre + [head] + body).inSubsection == HasSubsection(body)
    decreases |body|
  {
    if body == [] {
      assert pre + [head] + body == pre + [head];
      BuildSnoc(pre, head);
    } else {
      var init := body[..|body| - 1];
      var line := body[|body| - 1];
      assert pre + [head] + body == (pre + [head] + init) + [line];
      assert body == init + [line];
      assert forall i :: 0 <= i < |init| ==> init[i] == body[i];
      SectionIsLocal(pre, head, init);
      BuildSnoc(pre + [head] + init, line);
      HasSubsectionSnoc(init, line);
      var s0 := Build(pre).sections;
      var sec := Node(MarkedName(head, Section), SectionChildren(init));
      var b := Build(pre + [head] + init);
      match MarkerOf(line) {
        case Subsection =>
          ChildrenAfterSubsection(init, line);
          AddToLastAppend(s0, sec, Node(MarkedName(line, Subsection), []));
        case Detail =>
          ChildrenAfterDetail(init, line);
          if b.inSubsection {
            assert b.sections[..|b.sections| - 1] == s0;
          } else {
            AddToLastAppend(s0, sec, Leaf(line));
          }
        case _ =>
          ChildrenAfterOther(init, line);
      }
    }
  }

  /** Every line of a run is a `- ` line. */
  predicate AllDetails(lines: seq<string>) {
    forall i :: 0 <= i < |lines| ==> MarkerOf(lines[i]) == Detail
  }

  /** The leaves a run of `- ` lines names, in order. */
  function Leaves(details: seq<string>): (r: seq<Node>)
    ensures |r| == |details|
    decreases |details|
  {
    if details == [] then [] else Leaves(details[..|details| - 1]) + [Leaf(details[|details| - 1])]
  }

  lemma LeavesSnoc(init: seq<string>, d: string)
    ensures Leaves(init + [d]) == Leaves(init) + [Leaf(d)]
  {
    assert (init + [d])[..|init|] == init;
  }

  lemma DetailStep(body: seq<string>, init: seq<string>, d: string)
    requires MarkerOf(d) == Detail && !HasSubsection(body + init)
    requires SectionChildren(body + init) == SectionChildren(body) + Leaves(init)
    ensures SectionChildren(body + init + [d]) == SectionChildren(body) + Leaves(init + [d])
    ensures !HasSubsection(body + init + [d])
  {
    var c := SectionChildren(body);
    var l := Leaves(init);
    var leaf := Leaf(d);
    ChildrenAfterDetail(body + init, d);
    HasSubsectionSnoc(body + init, d);
    assert SectionChildren(body + init + [d]) == (c + l) + [leaf];
    LeavesSnoc(init, d);
    assert Leaves(init + [d]) == l + [leaf];
    assert (c + l) + [leaf] == c + (l + [leaf]);
  }

  /** Before any `### ` line, each `- ` line becomes a leaf of the section itself, in order. */
  lemma {:induction false} DetailsUnderSection(body: seq<string>, details: seq<string>)
    requires !HasSubsection(body) && AllDetails(details)
    ensures SectionChildren(body + details) == SectionChildren(body) + Leaves(details)
    ensures !HasSubsection(body + details)
    decreases |details|
  {
    if details == [] {
      assert body + details == body;
    } else {
      var init := details[..|details| - 1];
      var d := details[|details| - 1];
      assert details == init + [d];
      assert body + details == body + init + [d];
      assert AllDetails(init) by {
        forall i | 0 <= i < |init|
          ensures MarkerOf(init[i]) == Detail
        {
          assert init[i] == details[i];
        }
      }
      DetailsUnderSection(body, init);
      DetailStep(body, init, d);
    }
  }

  lemma SubsectionDetailStep(body: seq<string>, sub: string, init: seq<string>, d: string)
    requires MarkerOf(sub) == Subsection && MarkerOf(d) == Detail
    requires SectionChildren(body + [sub] + init) ==
      SectionChildren(body) + [Node(MarkedName(sub, Subsection), Leaves(init))]
    ensures SectionChildren(body + [sub] + init + [d]) ==
      SectionChildren(body) + [Node(MarkedName(sub, Subsection), Leaves(init + [d]))]
  {
    var pre := body + [sub] + init;
    assert HasSubsection(pre) by {
      assert pre[|body|] == sub;
    }
    ChildrenAfterDetail(pre, d);
    LeavesSnoc(init, d);
    AddToLastAppend(SectionChildren(body), Node(MarkedName(sub, Subsection), Leaves(init)), Leaf(d));
  }

  /** A `### ` line and the `- ` lines after it make one level-2 node holding those details in order. */
  lemma {:induction false} SubsectionGroup(body: seq<string>, sub: string, details: seq<string>)
    requires MarkerOf(sub) == Subsection && AllDetails(details)
    ensures SectionChildren(body + [sub] + details) ==
      SectionChildren(body) + [Node(MarkedName(sub, Subsection), Leaves(details))]
    decreases |details|
  {
    if details == [] {
      assert body + [sub] + details == body + [sub];
      ChildrenAfterSubsection(body, sub);
    } else {
      var init := details[..|details| - 1];
      var d := details[|details| - 1];
      assert details == init + [d];
      assert body + [sub] + details == body + [sub] + init + [d];
      assert AllDetails(init) by {
        forall i | 0 <= i < |init|
          ensures MarkerOf(init[i]) == Detail
        {
          assert init[i] == details[i];
        }
      }
      SubsectionGroup(body, sub, init);
      SubsectionDetailStep(body, sub, init, d);
    }
  }
}
