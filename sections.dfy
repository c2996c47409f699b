/** `splitSections`: a resume document is cut at its top-level `# Title`
    lines into a map from title to the trimmed text below it.

    The document is taken as its `\n`-separated lines. The text of a section,
    the characters from the end of its heading line up to the start of the
    next heading line (or the end of the document), trimmed, is the trimmed
    `\n`-join of the lines strictly between the two headings: the line breaks
    around those lines are white space that trimming removes anyway. */
module Sections {
  import opened Wrappers
  import opened Text
  import opened Seqs

  /** A line that `/^# (.+)$/m` matches: `# ` at the start of the line
      followed by at least one character. */
  predicate IsHeadingLine(l: string) {
    |l| >= 3 && l[0] == '#' && l[1] == ' '
  }

  /** The section name of a heading line: its captured text, trimmed. */
  function Title(l: string): string
    requires IsHeadingLine(l)
  {
    Trim(l[2..])
  }

  /** Index of the first heading line after line `i`, or the number of lines. */
  function NextHeading(lines: seq<string>, i: nat): (j: nat)
    requires i < |lines|
    ensures i < j <= |lines|
    ensures j < |lines| ==> IsHeadingLine(lines[j])
    ensures forall m :: i < m < j ==> !IsHeadingLine(lines[m])
    decreases |lines| - i
  {
    if i + 1 == |lines| || IsHeadingLine(lines[i + 1]) then i + 1
    else NextHeading(lines, i + 1)
  }

  /** The text of the section headed by line `i`. */
  function SectionText(lines: seq<string>, i: nat): string
    requires i < |lines|
  {
    Trim(Join(lines[i + 1..NextHeading(lines, i)], "\n"))
  }

  /** The last heading line titled `t` among the first `n` lines. */
  function LastTitled(lines: seq<string>, t: string, n: nat): (r: Option<nat>)
    requires n <= |lines|
    ensures r.Some? ==> r.value < n && IsHeadingLine(lines[r.value]) && Title(lines[r.value]) == t
    ensures r.Some? ==> forall m :: r.value < m < n && IsHeadingLine(lines[m]) ==> Title(lines[m]) != t
    ensures r.None? ==> forall m :: 0 <= m < n && IsHeadingLine(lines[m]) ==> Title(lines[m]) != t
  {
    if n == 0 then None
    else if IsHeadingLine(lines[n - 1]) && Title(lines[n - 1]) == t then Some(n - 1)
    else LastTitled(lines, t, n - 1)
  }

  /** The titles of all heading lines. */
  function Titles(lines: seq<string>): set<string> {
    set m | 0 <= m < |lines| && IsHeadingLine(lines[m]) :: Title(lines[m])
  }

  /** What `splitSections` returns, stated declaratively: one entry per title,
      holding the text under the LAST heading with that title. */
  function SectionsOf(content: string): map<string, string> {
    var lines := Lines(content);
    map t | t in Titles(lines) :: SectionText(lines, LastTitled(lines, t, |lines|).value)
  }

  /** The start of the `i`-th heading line, or the end of the document. */
  function Bound(lines: seq<string>, hs: seq<nat>, i: nat): nat
    requires i <= |hs|
  {
    if i < |hs| then hs[i] else |lines|
  }

  /** In a strictly increasing sequence, an element above the `i`-th is at
      or above the next one. */
  lemma IncreasingNext(hs: seq<nat>, i: nat)
    requires forall k, k' :: 0 <= k < k' < |hs| ==> hs[k] < hs[k']
    requires i < |hs|
    ensures forall m :: m in hs && hs[i] < m ==> i + 1 < |hs| && hs[i + 1] <= m
  {
    forall m | m in hs && hs[i] < m ensures i + 1 < |hs| && hs[i + 1] <= m {
      var k :| 0 <= k < |hs| && hs[k] == m;
      assert i < k;
    }
  }

  lemma IncreasingFirst(hs: seq<nat>)
    requires forall k, k' :: 0 <= k < k' < |hs| ==> hs[k] < hs[k']
    ensures forall m :: m in hs ==> hs[0] <= m
  {
    forall m | m in hs ensures hs[0] <= m {
      var k :| 0 <= k < |hs| && hs[k] == m;
      assert k == 0 || 0 < k;
    }
  }

  /** Between consecutive matches there is no other heading line, and the
      next match is the next heading line. */
  lemma WhereGap(lines: seq<string>, hs: seq<nat>, i: nat)
    requires hs == Where(lines, IsHeadingLine) && i < |hs|
    ensures hs[i] < Bound(lines, hs, i + 1) <= |lines|
    ensures forall m :: hs[i] < m < Bound(lines, hs, i + 1) ==> !IsHeadingLine(lines[m])
    ensures Bound(lines, hs, i + 1) == NextHeading(lines, hs[i])
  {
    IncreasingNext(hs, i);
    var b, j := Bound(lines, hs, i + 1), NextHeading(lines, hs[i]);
    assert forall m :: hs[i] < m < b ==> !IsHeadingLine(lines[m]);
    assert b < |lines| ==> IsHeadingLine(lines[b]);
  }

  /** No heading line lies before the first match. */
  lemma WhereFirst(lines: seq<string>, hs: seq<nat>)
    requires hs == Where(lines, IsHeadingLine)
    ensures forall m :: 0 <= m < Bound(lines, hs, 0) ==> !IsHeadingLine(lines[m])
  {
    if |hs| > 0 {
      IncreasingFirst(hs);
    }
  }

  /** Taking in lines `n` to `n'`, whose only heading line is `h`, updates the
      last heading titled `t` exactly when `h` carries that title. */
  lemma LastTitledStep(lines: seq<string>, t: string, n: nat, h: nat, n': nat)
    requires n <= h < n' <= |lines| && IsHeadingLine(lines[h])
    requires forall m :: n <= m < n' && m != h ==> !IsHeadingLine(lines[m])
    ensures LastTitled(lines, t, n') == if Title(lines[h]) == t then Some(h) else LastTitled(lines, t, n)
  {
    var r, r0 := LastTitled(lines, t, n'), LastTitled(lines, t, n);
    if Title(lines[h]) == t {
      assert r.Some?;
      assert !(r.value < h) && !(h < r.value);
    } else if r.Some? {
      assert r.value < n;
      assert r0.Some? && !(r0.value < r.value) && !(r.value < r0.value);
    } else if r0.Some? {
      assert false;
    }
  }

  /** With no heading line before `n`, no title has a heading there. */
  lemma LastTitledNone(lines: seq<string>, t: string, n: nat)
    requires n <= |lines|
    requires forall m :: 0 <= m < n ==> !IsHeadingLine(lines[m])
    ensures LastTitled(lines, t, n).None?
  {
  }

  /** `sections` holds, for every title heading one of the first `n` lines,
      the text under the last such heading, and nothing else. */
  ghost predicate SectionsBelow(lines: seq<string>, sections: map<string, string>, n: nat)
    requires n <= |lines|
  {
    (forall t :: t in sections <==> LastTitled(lines, t, n).Some?)
    && (forall t :: t in sections ==> sections[t] == SectionText(lines, LastTitled(lines, t, n).value))
  }

  /** Before the first heading, the map is empty. */
  lemma SectionsStart(lines: seq<string>, hs: seq<nat>)
    requires hs == Where(lines, IsHeadingLine)
    ensures SectionsBelow(lines, map[], Bound(lines, hs, 0))
  {
    WhereFirst(lines, hs);
    forall t ensures LastTitled(lines, t, Bound(lines, hs, 0)).None? {
      LastTitledNone(lines, t, Bound(lines, hs, 0));
    }
  }

  /** One turn of the loop: storing the text of heading `h` under its title
      accounts for lines `n` to `n'`, whose only heading line is `h`. */
  lemma SectionsStep(lines: seq<string>, sections: map<string, string>, n: nat, h: nat, n': nat)
    requires n <= h < n' <= |lines| && IsHeadingLine(lines[h])
    requires forall m :: n <= m < n' && m != h ==> !IsHeadingLine(lines[m])
    requires SectionsBelow(lines, sections, n)
    ensures SectionsBelow(lines, sections[Title(lines[h]) := SectionText(lines, h)], n')
  {
    forall t ensures LastTitled(lines, t, n') == if Title(lines[h]) == t then Some(h) else LastTitled(lines, t, n) {
      LastTitledStep(lines, t, n, h, n');
    }
  }

  lemma SectionsLoopStep(lines: seq<string>, hs: seq<nat>, i: nat, sections: map<string, string>)
    requires hs == Where(lines, IsHeadingLine) && i < |hs|
    requires SectionsBelow(lines, sections, Bound(lines, hs, i))
    ensures hs[i] < Bound(lines, hs, i + 1) <= |lines| && IsHeadingLine(lines[hs[i]])
    ensures SectionsBelow(lines,
      sections[Title(lines[hs[i]]) := Trim(Join(lines[hs[i] + 1..Bound(lines, hs, i + 1)], "\n"))],
      Bound(lines, hs, i + 1))
  {
    WhereGap(lines, hs, i);
    assert Bound(lines, hs, i) == hs[i];
    SectionsTextStep(lines, sections, hs[i], Bound(lines, hs, i + 1));
  }

  /** The same turn, with the text under heading `h` spelled out as the loop computes it. */
  lemma SectionsTextStep(lines: seq<string>, sections: map<string, string>, h: nat, n': nat)
    requires h < |lines| && IsHeadingLine(lines[h]) && n' == NextHeading(lines, h)
    requires SectionsBelow(lines, sections, h)
    ensures SectionsBelow(lines, sections[Title(lines[h]) := Trim(Join(lines[h + 1..n'], "\n"))], n')
  {
    SectionsStep(lines, sections, h, h, n');
  }

  /** After the last heading, the map is the declarative one. */
  lemma SectionsComplete(content: string, sections: map<string, string>)
    requires SectionsBelow(Lines(content), sections, |Lines(content)|)
    ensures sections == SectionsOf(content)
  {
    var lines := Lines(content);
    forall t ensures t in Titles(lines) <==> LastTitled(lines, t, |lines|).Some? {
      if t in Titles(lines) {
        var m :| 0 <= m < |lines| && IsHeadingLine(lines[m]) && Title(lines[m]) == t;
      }
    }
  }

  /** `splitSections` as the source writes it: a loop over the heading matches,
      each storing the trimmed text up to the next match under its trimmed name,
      so that a later heading with the same name overwrites an earlier one. */
  method SplitSections(content: string) returns (sections: map<string, string>)
    ensures sections == SectionsOf(content)
  {
    var lines := Lines(content);
    var hs := Where(lines, IsHeadingLine);
    sections := map[];
    SectionsStart(lines, hs);
    var i := 0;
    while i < |hs|
      invariant 0 <= i <= |hs|
      invariant SectionsBelow(lines, sections, Bound(lines, hs, i))
    {
      var h := hs[i];
      var name := Title(lines[h]);
      var end := if i + 1 < |hs| then hs[i + 1] else |lines|;
      SectionsLoopStep(lines, hs, i, sections);
      sections := sections[name := Trim(Join(lines[h + 1..end], "\n"))];
      i := i + 1;
    }
    SectionsComplete(content, sections);
  }

  lemma LastTitledIs(lines: seq<string>, i: nat)
    requires i < |lines| && IsHeadingLine(lines[i])
    requires forall m :: i < m < |lines| && IsHeadingLine(lines[m]) ==> Title(lines[m]) != Title(lines[i])
    ensures LastTitled(lines, Title(lines[i]), |lines|) == Some(i)
  {
    var r := LastTitled(lines, Title(lines[i]), |lines|);
    assert r.Some? && !(r.value < i) && !(i < r.value);
  }

  lemma NextHeadingIs(lines: seq<string>, i: nat, j: nat)
    requires i < j <= |lines|
    requires forall m :: i < m < j ==> !IsHeadingLine(lines[m])
    requires j < |lines| ==> IsHeadingLine(lines[j])
    ensures NextHeading(lines, i) == j
  {
    var n := NextHeading(lines, i);
    assert !(n < j) && !(j < n);
  }

  /** A heading line whose title no later heading line repeats owns the
      section under that title: the trimmed lines up to the next heading line
      (or the end of the document). */
  lemma SectionAt(content: string, i: nat, j: nat)
    requires i < j <= |Lines(content)| && IsHeadingLine(Lines(content)[i])
    requires forall m :: i < m < j ==> !IsHeadingLine(Lines(content)[m])
    requires j < |Lines(content)| ==> IsHeadingLine(Lines(content)[j])
    requires forall m :: i < m < |Lines(content)| && IsHeadingLine(Lines(content)[m]) ==>
      Title(Lines(content)[m]) != Title(Lines(content)[i])
    ensures var t := Title(Lines(content)[i]);
      t in SectionsOf(content) && SectionsOf(content)[t] == Trim(Join(Lines(content)[i + 1..j], "\n"))
  {
    SectionOfLines(Lines(content), i, j);
    SectionsEntry(content, i);
  }

  lemma SectionOfLines(lines: seq<string>, i: nat, j: nat)
    requires i < j <= |lines| && IsHeadingLine(lines[i])
    requires forall m :: i < m < j ==> !IsHeadingLine(lines[m])
    requires j < |lines| ==> IsHeadingLine(lines[j])
    requires forall m :: i < m < |lines| && IsHeadingLine(lines[m]) ==> Title(lines[m]) != Title(lines[i])
    ensures LastTitled(lines, Title(lines[i]), |lines|) == Some(i)
    ensures SectionText(lines, i) == Trim(Join(lines[i + 1..j], "\n"))
  {
    LastTitledIs(lines, i);
    NextHeadingIs(lines, i, j);
    SectionTextAt(lines, i, j);
  }

  lemma SectionTextAt(lines: seq<string>, i: nat, j: nat)
    requires i < |lines| && NextHeading(lines, i) == j
    ensures SectionText(lines, i) == Trim(Join(lines[i + 1..j], "\n"))
  {
  }

  /** The last heading line with a title gives the section under that title. */
  lemma SectionsEntry(content: string, i: nat)
    requires i < |Lines(content)| && IsHeadingLine(Lines(content)[i])
    requires LastTitled(Lines(content), Title(Lines(content)[i]), |Lines(content)|) == Some(i)
    ensures var t := Title(Lines(content)[i]);
      t in SectionsOf(content) && SectionsOf(content)[t] == SectionText(Lines(content), i)
  {
    var lines := Lines(content);
    assert Title(lines[i]) in Titles(lines);
  }

  /** A repeated title keeps only one section: the one under its last
      heading, which is at or after every repetition. */
  lemma RepeatedTitle(content: string, i: nat, j: nat)
    requires i < j < |Lines(content)|
    requires IsHeadingLine(Lines(content)[i]) && IsHeadingLine(Lines(content)[j])
    requires Title(Lines(content)[i]) == Title(Lines(content)[j])
    ensures var lines := Lines(content);
      var t := Title(lines[j]);
      var last := LastTitled(lines, t, |lines|);
      t in SectionsOf(content) && last.Some? && j <= last.value
      && SectionsOf(content)[t] == SectionText(lines, last.value)
  {
    var lines := Lines(content);
    var t := Title(lines[j]);
    assert t in Titles(lines);
  }

  /** A document without heading lines has no sections; in particular the
      empty document has none. */
  lemma NoHeadingsNoSections(content: string)
    requires forall k :: 0 <= k < |Lines(content)| ==> !IsHeadingLine(Lines(content)[k])
    ensures SectionsOf(content) == map[]
  {
    assert Titles(Lines(content)) == {};
  }

  lemma EmptyDocumentSections()
    ensures SectionsOf("") == map[]
  {
    NoHeadingsNoSections("");
  }

  /** A `## ` line never ends a section: it belongs to the text of the
      section above it. */
  lemma SubHeadingIsContent(lines: seq<string>, i: nat, j: nat)
    requires i < j < |lines| && StartsWith(lines[j], "## ")
    requires forall m :: i < m < j ==> !IsHeadingLine(lines[m])
    ensures j < NextHeading(lines, i)
  {
    assert lines[j][1] == '#';
  }
}
