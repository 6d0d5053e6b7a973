/**
 * The JavaScript string operations the application relies on, over strings
 * as sequences of characters: `trim`, `startsWith`, `includes`, `indexOf`,
 * `substring(0, n)`, `replace` with a string pattern, `split` on one
 * character and `join`.
 */
module Text {
  import opened Common

  /** ECMAScript WhiteSpace and LineTerminator: the characters `trim` removes and `\s` matches. */
  const Spaces: set<char> := {
    ' ', '\t', '\n', '\r', '\U{000B}', '\U{000C}', '\U{00A0}', '\U{1680}',
    '\U{2000}', '\U{2001}', '\U{2002}', '\U{2003}', '\U{2004}', '\U{2005}',
    '\U{2006}', '\U{2007}', '\U{2008}', '\U{2009}', '\U{200A}',
    '\U{2028}', '\U{2029}', '\U{202F}', '\U{205F}', '\U{3000}', '\U{FEFF}'
  }

  predicate IsSpace(c: char) {
    c in Spaces
  }

  predicate AllSpace(s: string) {
    forall i :: 0 <= i < |s| ==> IsSpace(s[i])
  }

  /** A string with no white space at either end: what `trim` returns. */
  predicate IsTrimmed(s: string) {
    s == [] || (!IsSpace(s[0]) && !IsSpace(s[|s| - 1]))
  }

  function TrimStart(s: string): (r: string)
    ensures |r| <= |s| && r == s[|s| - |r|..]
    ensures AllSpace(s[..|s| - |r|])
    ensures r == [] || !IsSpace(r[0])
  {
    if s != [] && IsSpace(s[0]) then
      var r := TrimStart(s[1..]);
      DropLeadingSpace(s, r);
      r
    else s
  }

  /** Dropping one leading space keeps what `TrimStart` promises of the rest. */
  lemma DropLeadingSpace(s: string, r: string)
    requires s != [] && IsSpace(s[0])
    requires |r| <= |s| - 1 && r == s[1..][|s| - 1 - |r|..] && AllSpace(s[1..][..|s| - 1 - |r|])
    ensures r == s[|s| - |r|..] && AllSpace(s[..|s| - |r|])
  {
    assert s[1..][|s| - 1 - |r|..] == s[|s| - |r|..];
    forall i | 0 <= i < |s| - |r|
      ensures IsSpace(s[i])
    {
      if i > 0 {
        assert s[i] == s[1..][..|s| - 1 - |r|][i - 1];
      }
    }
  }

  function TrimEnd(s: string): (r: string)
    ensures |r| <= |s| && r == s[..|r|]
    ensures AllSpace(s[|r|..])
    ensures r == [] || !IsSpace(r[|r| - 1])
  {
    if s != [] && IsSpace(s[|s| - 1]) then TrimEnd(s[..|s| - 1]) else s
  }

  /** `String.prototype.trim`. */
  function Trim(s: string): (r: string)
    ensures IsTrimmed(r)
    ensures |r| <= |s|
    ensures r == [] <==> AllSpace(s)
  {
    var t := TrimStart(s);
    var r := TrimEnd(t);
    assert r == [] ==> AllSpace(s) by {
      if r == [] {
        assert s == s[..|s| - |t|] + t;
        assert AllSpace(t[|r|..]);
      }
    }
    r
  }

  lemma TrimStartOfTrimmed(s: string)
    requires s == [] || !IsSpace(s[0])
    ensures TrimStart(s) == s
  {
  }

  lemma TrimEndOfTrimmed(s: string)
    requires s == [] || !IsSpace(s[|s| - 1])
    ensures TrimEnd(s) == s
  {
  }

  /** Trimming a string that is already trimmed changes nothing. */
  lemma TrimOfTrimmed(s: string)
    requires IsTrimmed(s)
    ensures Trim(s) == s
  {
    TrimStartOfTrimmed(s);
    TrimEndOfTrimmed(s);
  }

  lemma TrimIdempotent(s: string)
    ensures Trim(Trim(s)) == Trim(s)
  {
    TrimOfTrimmed(Trim(s));
  }

  lemma {:induction false} TrimStartPadded(a: string, s: string)
    requires AllSpace(a)
    requires s == [] || !IsSpace(s[0])
    ensures TrimStart(a + s) == s
    decreases |a|
  {
    if a == [] {
      assert a + s == s;
      TrimStartOfTrimmed(s);
    } else {
      assert (a + s)[1..] == a[1..] + s;
      TrimStartPadded(a[1..], s);
    }
  }

  lemma {:induction false} TrimEndPadded(s: string, b: string)
    requires AllSpace(b)
    requires s == [] || !IsSpace(s[|s| - 1])
    ensures TrimEnd(s + b) == s
    decreases |b|
  {
    if b == [] {
      assert s + b == s;
      TrimEndOfTrimmed(s);
    } else {
      assert (s + b)[..|s + b| - 1] == s + b[..|b| - 1];
      TrimEndPadded(s, b[..|b| - 1]);
    }
  }

  /** White space around a trimmed string is exactly what `trim` removes. */
  lemma TrimPadded(a: string, s: string, b: string)
    requires AllSpace(a) && AllSpace(b) && IsTrimmed(s)
    ensures Trim(a + s + b) == s
  {
    if s == [] {
      assert a + s + b == a + b;
      assert AllSpace(a + b);
      assert Trim(a + b) == [];
    } else {
      assert a + s + b == a + (s + b);
      TrimStartPadded(a, s + b);
      TrimEndPadded(s, b);
    }
  }

  /** `s.startsWith(p)`. */
  predicate StartsWith(s: string, p: string) {
    |p| <= |s| && s[..|p|] == p
  }

  /** `p` occurs in `s` starting at index `i`. */
  predicate OccursAt(s: string, p: string, i: nat) {
    i + |p| <= |s| && s[i..i + |p|] == p
  }

  /** `s.includes(p)`. */
  predicate Contains(s: string, p: string) {
    exists i: nat :: i <= |s| && OccursAt(s, p, i)
  }

  lemma ContainsSuffix(a: string, p: string)
    ensures Contains(a + p, p)
  {
    assert OccursAt(a + p, p, |a|);
  }

  lemma ContainsInfix(a: string, p: string, b: string)
    ensures Contains(a + p + b, p)
  {
    assert (a + p + b)[|a|..|a| + |p|] == p;
    assert OccursAt(a + p + b, p, |a|);
  }

  lemma ContainsExtend(a: string, s: string, b: string, p: string)
    requires Contains(s, p)
    ensures Contains(a + s + b, p)
  {
    var i: nat :| i <= |s| && OccursAt(s, p, i);
    assert (a + s + b)[|a| + i..|a| + i + |p|] == s[i..i + |p|];
    assert OccursAt(a + s + b, p, |a| + i);
  }

  /** An occurrence inside a slice is an occurrence in the whole string. */
  lemma OccursInSlice(s: string, p: string, lo: nat, hi: nat, i: nat)
    requires lo <= hi <= |s| && OccursAt(s[lo..hi], p, i)
    ensures OccursAt(s, p, lo + i) && lo + i + |p| <= hi
  {
    SliceOfSlice(s, lo, hi, i, i + |p|);
  }

  lemma SliceOfSlice(s: string, lo: nat, hi: nat, i: nat, j: nat)
    requires lo <= hi <= |s| && i <= j <= hi - lo
    ensures s[lo..hi][i..j] == s[lo + i..lo + j]
  {
    assert |s[lo..hi][i..j]| == |s[lo + i..lo + j]|;
    forall k | 0 <= k < j - i
      ensures s[lo..hi][i..j][k] == s[lo + i..lo + j][k]
    {
      assert s[lo..hi][i..j][k] == s[lo..hi][i + k] == s[lo + i + k];
    }
  }

  /** Whatever the trimmed string contains, the string contains. */
  lemma ContainsOfTrim(s: string, p: string)
    requires Contains(Trim(s), p)
    ensures Contains(s, p)
  {
    var t := TrimStart(s);
    var r := Trim(s);
    var i: nat :| i <= |r| && OccursAt(r, p, i);
    var k := |s| - |t|;
    assert r == t[..|r|];
    OccursInSlice(t, p, 0, |r|, i);
    assert t == s[k..|s|];
    OccursInSlice(s, p, k, |s|, i);
  }

  /**
   * No occurrence of `p` starts in `s[lo..b]` or at `b` when that slice does
   * not contain `p` and the character at `b` is not in `p`: an occurrence
   * would either lie inside the slice or cover position `b`.
   */
  lemma NoOccurrenceAcross(s: string, p: string, lo: nat, b: nat)
    requires lo <= b < |s| && s[b] !in p && |p| > 0
    requires !Contains(s[lo..b], p)
    ensures forall i: nat :: lo <= i <= b ==> !OccursAt(s, p, i)
  {
    forall i: nat | lo <= i <= b
      ensures !OccursAt(s, p, i)
    {
      if i + |p| <= b {
        SliceOfSlice(s, lo, b, i - lo, i - lo + |p|);
        assert OccursAt(s, p, i) ==> OccursAt(s[lo..b], p, i - lo);
      }
    }
  }

  /**
   * A template literal `lits[0]${holes[0]}lits[1]...${holes[n-1]}lits[n]`:
   * the literal pieces interleaved with the interpolated values.
   */
  function Interpolate(lits: seq<string>, holes: seq<string>): string
    requires |lits| == |holes| + 1
    decreases |holes|
  {
    if |holes| == 0 then lits[0]
    else lits[0] + holes[0] + Interpolate(lits[1..], holes[1..])
  }

  /** Every interpolated value appears verbatim in the filled template. */
  lemma {:induction false} InterpolateContains(lits: seq<string>, holes: seq<string>, k: nat)
    requires |lits| == |holes| + 1 && k < |holes|
    ensures Contains(Interpolate(lits, holes), holes[k])
    decreases |holes|
  {
    var rest := Interpolate(lits[1..], holes[1..]);
    if k == 0 {
      ContainsInfix(lits[0], holes[0], rest);
    } else {
      InterpolateContains(lits[1..], holes[1..], k - 1);
      ContainsExtend(lits[0] + holes[0], rest, "", holes[k]);
      assert lits[0] + holes[0] + rest + "" == lits[0] + holes[0] + rest;
    }
  }

  /** `s.indexOf(p, from)`: the first occurrence of `p` at or after `from`. */
  function IndexOf(s: string, p: string, from: nat): (r: Option<nat>)
    ensures r.Some? ==> from <= r.value && OccursAt(s, p, r.value)
    ensures r.Some? ==> forall j: nat :: from <= j < r.value ==> !OccursAt(s, p, j)
    ensures r.None? ==> forall j: nat :: from <= j ==> !OccursAt(s, p, j)
    decreases |s| - from
  {
    if OccursAt(s, p, from) then Some(from)
    else if from >= |s| then None
    else IndexOf(s, p, from + 1)
  }

  /** `indexOf` finds an occurrence when none starts earlier. */
  lemma IndexOfIs(s: string, p: string, from: nat, k: nat)
    requires from <= k && OccursAt(s, p, k)
    requires forall j: nat :: from <= j < k ==> !OccursAt(s, p, j)
    ensures IndexOf(s, p, from) == Some(k)
  {
    var r := IndexOf(s, p, from);
    assert r.Some? && from <= r.value;
    assert !(r.value < k) && !(k < r.value);
  }

  /** The index of the first `c` in `s`. */
  function FirstIndexOf(s: string, c: char): (i: nat)
    requires c in s
    ensures i < |s| && s[i] == c && c !in s[..i]
  {
    if s[0] == c then 0
    else
      assert c in s[1..] by { assert s == [s[0]] + s[1..]; }
      var j := FirstIndexOf(s[1..], c);
      assert s[..j + 1] == [s[0]] + s[1..][..j];
      j + 1
  }

  /** The index of the last `c` in `s`. */
  function LastIndexOf(s: string, c: char): (i: nat)
    requires c in s
    ensures i < |s| && s[i] == c && c !in s[i + 1..]
  {
    if s[|s| - 1] == c then |s| - 1
    else
      assert c in s[..|s| - 1] by { assert s == s[..|s| - 1] + [s[|s| - 1]]; }
      var j := LastIndexOf(s[..|s| - 1], c);
      assert s[j + 1..] == s[..|s| - 1][j + 1..] + [s[|s| - 1]];
      j
  }

  /** `s.substring(0, n)` for a non-negative `n`. */
  function Take(s: string, n: nat): (r: string)
    ensures |r| == if n < |s| then n else |s|
    ensures StartsWith(s, r)
  {
    if n < |s| then s[..n] else s
  }

  lemma TakeOfShort(s: string, n: nat)
    requires |s| <= n
    ensures Take(s, n) == s
  {
  }

  /** `p` occurs at `i` and nowhere before it. */
  predicate FirstOccurrence(s: string, p: string, i: nat) {
    OccursAt(s, p, i) && forall j: nat :: j < i ==> !OccursAt(s, p, j)
  }

  /** `s.replace(p, rep)` with a string pattern: only the first occurrence is replaced. */
  function ReplaceFirst(s: string, p: string, rep: string): (r: string)
    ensures !Contains(s, p) ==> r == s
    ensures Contains(s, p) ==> exists i: nat ::
      i <= |s| && FirstOccurrence(s, p, i) && r == s[..i] + rep + s[i + |p|..]
  {
    match IndexOf(s, p, 0)
    case None => s
    case Some(i) =>
      assert FirstOccurrence(s, p, i);
      s[..i] + rep + s[i + |p|..]
  }

  /** `parts.join(sep)`. */
  function Join(parts: seq<string>, sep: string): string
    decreases |parts|
  {
    if |parts| == 0 then ""
    else if |parts| == 1 then parts[0]
    else parts[0] + sep + Join(parts[1..], sep)
  }

  lemma {:induction false} JoinAppend(a: seq<string>, b: seq<string>, sep: string)
    requires |a| > 0 && |b| > 0
    ensures Join(a + b, sep) == Join(a, sep) + sep + Join(b, sep)
    decreases |a|
  {
    if |a| == 1 {
      assert (a + b)[1..] == b;
    } else {
      assert (a + b)[1..] == a[1..] + b;
      JoinAppend(a[1..], b, sep);
    }
  }

  /** Every part occurs in the joined text. */
  lemma {:induction false} JoinContains(parts: seq<string>, sep: string, i: nat)
    requires i < |parts|
    ensures Contains(Join(parts, sep), parts[i])
    decreases |parts|
  {
    if |parts| == 1 {
      ContainsInfix("", parts[0], "");
      assert "" + parts[0] + "" == parts[0];
    } else if i == 0 {
      ContainsInfix("", parts[0], sep + Join(parts[1..], sep));
      assert "" + parts[0] + (sep + Join(parts[1..], sep)) == Join(parts, sep);
    } else {
      JoinContains(parts[1..], sep, i - 1);
      ContainsExtend(parts[0] + sep, Join(parts[1..], sep), "", parts[i]);
      assert parts[0] + sep + Join(parts[1..], sep) + "" == Join(parts, sep);
    }
  }

  lemma JoinContainsAll(parts: seq<string>, sep: string)
    ensures forall i :: 0 <= i < |parts| ==> Contains(Join(parts, sep), parts[i])
  {
    forall i | 0 <= i < |parts|
      ensures Contains(Join(parts, sep), parts[i])
    {
      JoinContains(parts, sep, i);
    }
  }

  /** `s.split(c)` for a one-character separator. */
  function Split(s: string, c: char): (r: seq<string>)
    ensures |r| >= 1
    ensures forall i :: 0 <= i < |r| ==> c !in r[i]
    ensures Join(r, [c]) == s
    decreases |s|
  {
    if c !in s then [s]
    else
      var i := FirstIndexOf(s, c);
      var rest := Split(s[i + 1..], c);
      var r := [s[..i]] + rest;
      assert r[1..] == rest;
      assert s == s[..i] + [c] + s[i + 1..];
      r
  }

  lemma FirstIndexOfAfter(a: string, c: char, b: string)
    requires c !in a
    ensures FirstIndexOf(a + [c] + b, c) == |a|
  {
    var s := a + [c] + b;
    var i := FirstIndexOf(s, c);
    assert s[|a|] == c;
    assert s[..|a|] == a;
  }

  /** The first part of a split ends at the first separator. */
  lemma SplitCons(a: string, c: char, tail: string)
    requires c !in a
    ensures Split(a + [c] + tail, c) == [a] + Split(tail, c)
  {
    var s := a + [c] + tail;
    assert s[|a|] == c;
    FirstIndexOfAfter(a, c, tail);
    assert s[..|a|] == a;
    assert s[|a| + 1..] == tail;
  }

  /** Splitting a join undoes it when no part contains the separator. */
  lemma {:induction false} SplitJoin(parts: seq<string>, c: char)
    requires |parts| >= 1
    requires forall i :: 0 <= i < |parts| ==> c !in parts[i]
    ensures Split(Join(parts, [c]), c) == parts
    decreases |parts|
  {
    if |parts| > 1 {
      var tail := Join(parts[1..], [c]);
      assert Join(parts, [c]) == parts[0] + [c] + tail;
      SplitCons(parts[0], c, tail);
      SplitJoin(parts[1..], c);
      assert parts == [parts[0]] + parts[1..];
    }
  }

  /** The lines of a text: `s.split("\n")`. */
  function Lines(s: string): (r: seq<string>)
    ensures |r| >= 1 && Join(r, "\n") == s
  {
    Split(s, '\n')
  }

  /** Decimal rendering of a natural number, as template literals print it. */
  function NatToString(n: nat): (r: string)
    ensures |r| >= 1
    ensures forall i :: 0 <= i < |r| ==> '0' <= r[i] <= '9'
    decreases n
  {
    var d := [(('0' as int) + n % 10) as char];
    if n < 10 then d else NatToString(n / 10) + d
  }

  /** The digits read back as a number. */
  function DigitsValue(s: string): nat
    requires forall i :: 0 <= i < |s| ==> '0' <= s[i] <= '9'
  {
    if s == [] then 0 else DigitsValue(s[..|s| - 1]) * 10 + (s[|s| - 1] as int - '0' as int)
  }

  lemma {:induction false} NatToStringRoundTrip(n: nat)
    ensures DigitsValue(NatToString(n)) == n
    decreases n
  {
    var r := NatToString(n);
    if n >= 10 {
      NatToStringRoundTrip(n / 10);
      assert r[..|r| - 1] == NatToString(n / 10);
    }
  }
}
