/**
 * The navigation sidebar: five fixed links, each highlighted ("active") when
 * the current path belongs to it. The home link matches the path exactly;
 * the others match it as a prefix.
 */
module Sidebar {
  import opened Common
  import opened Text

  /** One link: what it shows, where it leads, and how it recognises its pages. */
  datatype Route = Route(title: string, href: string, rule: PathRule)

  /** `pathname === p` or `pathname.startsWith(p)`. */
  datatype PathRule = Exact(path: string) | Prefix(prefix: string)

  const Routes: seq<Route> := [
    Route("Accueil", "/", Exact("/")),
    Route("Notes", "/notes", Prefix("/notes")),
    Route("Sujets", "/subjects", Prefix("/subjects")),
    Route("Quiz", "/quiz", Prefix("/quiz")),
    Route("IA Studio", "/ai/generate", Prefix("/ai"))
  ]

  predicate Matches(m: PathRule, path: string) {
    match m
    case Exact(p) => path == p
    case Prefix(p) => StartsWith(path, p)
  }

  /** `routes[i].active`. */
  function Active(i: nat, path: string): (r: bool)
    requires i < |Routes|
    ensures r ==> StartsWith(path, "/")
    ensures r ==> (i == 0 <==> |path| == 1)
    ensures i == 0 ==> (r <==> path == "/")
    ensures i == 1 ==> (r <==> StartsWith(path, "/notes"))
    ensures i == 2 ==> (r <==> StartsWith(path, "/subjects"))
    ensures i == 3 ==> (r <==> StartsWith(path, "/quiz"))
    ensures i == 4 ==> (r <==> StartsWith(path, "/ai"))
  {
    Matches(Routes[i].rule, path)
  }

  /** The highlighted link, if any: the only one, since no two are ever highlighted together. */
  function ActiveRoute(path: string): (r: Option<nat>)
    ensures r.Some? ==> r.value < |Routes| && Active(r.value, path)
    ensures r.Some? ==> forall j :: 0 <= j < |Routes| && Active(j, path) ==> j == r.value
    ensures r.None? <==> forall i :: 0 <= i < |Routes| ==> !Active(i, path)
  {
    ActiveIsSecondChar(path);
    if Active(0, path) then Some(0)
    else if Active(1, path) then Some(1)
    else if Active(2, path) then Some(2)
    else if Active(3, path) then Some(3)
    else if Active(4, path) then Some(4)
    else None
  }

  /** Which character each prefix link looks at after the leading `/`. */
  function SecondChar(i: nat): char
    requires 1 <= i < |Routes|
  {
    Routes[i].rule.prefix[1]
  }

  /** A prefix link is active only on paths whose second character is its own. */
  lemma ActiveIsSecondChar(path: string)
    ensures forall i :: 1 <= i < |Routes| && Active(i, path) ==> |path| >= 2 && path[1] == SecondChar(i)
  {
    forall i | 1 <= i < |Routes| && Active(i, path)
      ensures |path| >= 2 && path[1] == SecondChar(i)
    {
      assert path[..|Routes[i].rule.prefix|][1] == path[1];
    }
  }

  /** At most one link is highlighted on any page. */
  lemma AtMostOneActive(path: string, i: nat, j: nat)
    requires i < |Routes| && j < |Routes|
    requires Active(i, path) && Active(j, path)
    ensures i == j
  {
    ActiveIsSecondChar(path);
  }

  /** On the home page only the home link is highlighted. */
  lemma HomeOnlyAccueil(i: nat)
    requires i < |Routes|
    ensures Active(i, "/") <==> i == 0
  {
    if i > 0 {
      ActiveIsSecondChar("/");
    }
  }

  /** Following a link highlights it. */
  lemma OwnHrefActive(i: nat)
    requires i < |Routes|
    ensures Active(i, Routes[i].href)
  {
    if i == 4 {
      assert Routes[4].href[..3] == "/ai";
    }
  }

  /** A page below a prefix link keeps it highlighted: `/notes/new` highlights Notes. */
  lemma PrefixActiveBelow(i: nat, rest: string)
    requires 1 <= i < |Routes|
    ensures Active(i, Routes[i].rule.prefix + rest)
  {
    var p := Routes[i].rule.prefix;
    assert (p + rest)[..|p|] == p;
  }
}
