/** `generateTypst`: the typeset resume, as Typst markup, assembled from the
    parsed profile and the tailored resume. Every piece of free text goes
    through `Escape`; the GitHub and LinkedIn values also appear raw inside
    the link URL.

    The template literal is written here as its list of lines joined with
    line feeds, which is the same text. */
module TypstTemplate {
  import opened Wrappers
  import opened Text
  import opened Layout
  import opened TypstEscape
  import opened ResumeModel
  import opened Seqs

  /** `xs.map(escapeTypst)`. */
  function EscapeEach(xs: seq<string>): (r: seq<string>)
    ensures |r| == |xs|
  {
    if xs == [] then [] else [Escape(xs[0])] + EscapeEach(xs[1..])
  }

  lemma {:induction false} EscapeEachAt(xs: seq<string>, k: nat)
    requires k < |xs|
    ensures EscapeEach(xs)[k] == Escape(xs[k])
  {
    if k > 0 {
      EscapeEachAt(xs[1..], k - 1);
    }
  }

  lemma {:induction false} CountSpecialNone(s: string)
    requires forall i :: 0 <= i < |s| ==> !IsSpecial(s[i])
    ensures CountSpecial(s) == 0
  {
    if s != [] {
      CountSpecialNone(s[1..]);
    }
  }

  /** Escaping the items one by one and joining them with a separator free of
      special characters is escaping the joined text. */
  lemma {:induction false} EscapeJoin(xs: seq<string>, sep: string)
    requires CountSpecial(sep) == 0
    ensures Join(EscapeEach(xs), sep) == Escape(Join(xs, sep))
  {
    if |xs| == 1 {
      assert EscapeEach(xs) == [Escape(xs[0])];
    } else if |xs| > 1 {
      EscapeJoin(xs[1..], sep);
      EscapeAppend(xs[0] + sep, Join(xs[1..], sep));
      EscapeAppend(xs[0], sep);
    }
  }

  /** A joined list of escaped items gives the items' join back when unescaped,
      and holds no bare `#`, `$`, `@`, `<` or `>`. */
  lemma EscapedJoinRecovers(xs: seq<string>, sep: string)
    requires CountSpecial(sep) == 0
    ensures Unescape(Join(EscapeEach(xs), sep)) == Join(xs, sep)
    ensures WellEscaped(Join(EscapeEach(xs), sep))
  {
    EscapeJoin(xs, sep);
    UnescapeEscape(Join(xs, sep));
    EscapeWellEscaped(Join(xs, sep));
  }

  /** Escaping adds backslashes only, never a line feed. */
  lemma {:induction false} EscapeOneLine(s: string)
    requires OneLine(s)
    ensures OneLine(Escape(s))
  {
    if s != [] {
      EscapeOneLine(s[1..]);
    }
  }

  lemma {:induction false} EscapeEachOneLine(xs: seq<string>)
    requires forall k :: 0 <= k < |xs| ==> OneLine(xs[k])
    ensures forall k :: 0 <= k < |EscapeEach(xs)| ==> OneLine(EscapeEach(xs)[k])
  {
    forall k | 0 <= k < |xs| ensures OneLine(EscapeEach(xs)[k]) {
      EscapeEachAt(xs, k);
      EscapeOneLine(xs[k]);
    }
  }

  // ---------------------------------------------------------------------------
  // Header contact line.

  /** `#link("https://<value>")[<escaped value>]`: the URL keeps the raw value. */
  function Link(v: string): string {
    "#link(\"https://" + v + "\")[" + Escape(v) + "]"
  }

  /** The five contact fields in the order the header lists them, each with
      whether it renders as a link. */
  function ContactSlots(p: Profile): seq<(Option<string>, bool)> {
    [(p.email, false), (p.phone, false), (p.github, true), (p.linkedin, true), (p.location, false)]
  }

  /** A truthy field's rendering: a link, or the escaped value. */
  function RenderSlot(slot: (Option<string>, bool)): Option<string> {
    if Truthy(slot.0) then Some(if slot.1 then Link(slot.0.value) else Escape(slot.0.value)) else None
  }

  /** A truthy field's raw value. */
  function SlotText(slot: (Option<string>, bool)): Option<string> {
    if Truthy(slot.0) then Some(slot.0.value) else None
  }

  /** The rendered contact parts: one per truthy field, in order. */
  function ContactPartsOf(p: Profile): seq<string> {
    Collect(ContactSlots(p), RenderSlot)
  }

  /** The raw values of the truthy contact fields, in order. */
  function ContactTexts(p: Profile): seq<string> {
    Collect(ContactSlots(p), SlotText)
  }

  /** `contactParts.join(" | ")`. */
  function Contact(p: Profile): string {
    Join(ContactPartsOf(p), " | ")
  }

  /** The part one field contributes: its rendering if truthy, else nothing. */
  function Piece(slot: (Option<string>, bool)): seq<string> {
    match RenderSlot(slot) case Some(y) => [y] case None => []
  }

  /** The contact parts are the five fields' pieces in order. */
  lemma ContactPieces(p: Profile)
    ensures ContactPartsOf(p) == Piece((p.email, false)) + Piece((p.phone, false))
      + Piece((p.github, true)) + Piece((p.linkedin, true)) + Piece((p.location, false))
  {
    var s := ContactSlots(p);
    var s01, s012, s0123 := [s[0]] + [s[1]], [s[0]] + [s[1]] + [s[2]], [s[0]] + [s[1]] + [s[2]] + [s[3]];
    assert s == s0123 + [s[4]];
    assert Collect(s, RenderSlot) == Collect(s0123, RenderSlot) + Piece(s[4]) by {
      CollectAppend(s0123, [s[4]], RenderSlot);
      CollectOne(s[4], RenderSlot);
    }
    assert Collect(s0123, RenderSlot) == Collect(s012, RenderSlot) + Piece(s[3]) by {
      CollectAppend(s012, [s[3]], RenderSlot);
      CollectOne(s[3], RenderSlot);
    }
    assert Collect(s012, RenderSlot) == Collect(s01, RenderSlot) + Piece(s[2]) by {
      CollectAppend(s01, [s[2]], RenderSlot);
      CollectOne(s[2], RenderSlot);
    }
    assert Collect(s01, RenderSlot) == Piece(s[0]) + Piece(s[1]) by {
      CollectAppend([s[0]], [s[1]], RenderSlot);
      CollectOne(s[0], RenderSlot);
      CollectOne(s[1], RenderSlot);
    }
  }

  /** `contactParts`, built by the source's five conditional pushes. */
  method ContactParts(p: Profile) returns (parts: seq<string>)
    ensures parts == ContactPartsOf(p)
  {
    parts := [];
    if Truthy(p.email) { parts := parts + [Escape(p.email.value)]; }
    assert parts == Piece((p.email, false));
    ghost var done := parts;
    if Truthy(p.phone) { parts := parts + [Escape(p.phone.value)]; }
    assert parts == done + Piece((p.phone, false));
    done := parts;
    if Truthy(p.github) { parts := parts + [Link(p.github.value)]; }
    assert parts == done + Piece((p.github, true));
    done := parts;
    if Truthy(p.linkedin) { parts := parts + [Link(p.linkedin.value)]; }
    assert parts == done + Piece((p.linkedin, true));
    done := parts;
    if Truthy(p.location) { parts := parts + [Escape(p.location.value)]; }
    assert parts == done + Piece((p.location, false));
    ContactPieces(p);
  }

  /** A truthy GitHub or LinkedIn value yields its link part; a contact part
      comes only from a truthy field. */
  lemma ContactLinks(p: Profile)
    ensures Truthy(p.github) ==> Link(p.github.value) in ContactPartsOf(p)
    ensures Truthy(p.linkedin) ==> Link(p.linkedin.value) in ContactPartsOf(p)
    ensures forall k :: 0 <= k < |ContactPartsOf(p)| ==>
      exists i :: 0 <= i < 5 && Truthy(ContactSlots(p)[i].0) && RenderSlot(ContactSlots(p)[i]) == Some(ContactPartsOf(p)[k])
  {
    var slots := ContactSlots(p);
    var idx := CollectSources(slots, RenderSlot);
    if Truthy(p.github) {
      assert RenderSlot(slots[2]).Some?;
      var k :| 0 <= k < |idx| && idx[k] == 2;
    }
    if Truthy(p.linkedin) {
      assert RenderSlot(slots[3]).Some?;
      var k :| 0 <= k < |idx| && idx[k] == 3;
    }
    forall k | 0 <= k < |ContactPartsOf(p)|
      ensures exists i :: 0 <= i < 5 && Truthy(slots[i].0) && RenderSlot(slots[i]) == Some(ContactPartsOf(p)[k])
    {
      var i := idx[k];
    }
  }

  lemma {:induction false} EscapeEachAppend(a: seq<string>, b: seq<string>)
    ensures EscapeEach(a + b) == EscapeEach(a) + EscapeEach(b)
  {
    if a == [] {
      assert a + b == b;
    } else {
      assert (a + b)[1..] == a[1..] + b;
      EscapeEachAppend(a[1..], b);
    }
  }

  /** Over fields that are not links, the rendered parts are the escaped
      raw values. */
  lemma {:induction false} RenderPlain(slots: seq<(Option<string>, bool)>)
    requires forall i :: 0 <= i < |slots| ==> !slots[i].1 || !Truthy(slots[i].0)
    ensures Collect(slots, RenderSlot) == EscapeEach(Collect(slots, SlotText))
  {
    if slots != [] {
      var n := |slots| - 1;
      RenderPlain(slots[..n]);
      var last := match SlotText(slots[n]) case Some(y) => [y] case None => [];
      EscapeEachAppend(Collect(slots[..n], SlotText), last);
    }
  }

  lemma SeparatorPlain()
    ensures CountSpecial(" | ") == 0 && CountSpecial(", ") == 0 && CountSpecial("    ") == 0
  {
    CountSpecialNone(" | ");
    CountSpecialNone(", ");
    CountSpecialNone("    ");
  }

  /** Without GitHub and LinkedIn links the contact line is plain escaped
      text: unescaping it gives the truthy values joined with ` | `, and it
      holds no bare Typst markup character. */
  lemma ContactPlain(p: Profile)
    requires !Truthy(p.github) && !Truthy(p.linkedin)
    ensures Unescape(Contact(p)) == Join(ContactTexts(p), " | ")
    ensures WellEscaped(Contact(p))
  {
    RenderPlain(ContactSlots(p));
    SeparatorPlain();
    EscapedJoinRecovers(ContactTexts(p), " | ");
  }

  // ---------------------------------------------------------------------------
  // Skills and languages.

  /** `skills.map(escapeTypst).join(", ")`. */
  function SkillsLine(skills: seq<string>): string {
    Join(EscapeEach(skills), ", ")
  }

  /** The skills line is the escaped comma-separated list: it unescapes to
      the list and holds no bare markup character. */
  lemma SkillsLineRecovers(skills: seq<string>)
    ensures SkillsLine(skills) == Escape(Join(skills, ", "))
    ensures Unescape(SkillsLine(skills)) == Join(skills, ", ")
    ensures WellEscaped(SkillsLine(skills))
  {
    SeparatorPlain();
    EscapeJoin(skills, ", ");
    EscapedJoinRecovers(skills, ", ");
  }

  /** The languages line: a square bullet, a space, then the escaped
      languages separated by four spaces. */
  function LanguagesLine(languages: seq<string>): string {
    "\U{25A0} " + Join(EscapeEach(languages), "    ")
  }

  lemma LanguagesLineRecovers(languages: seq<string>)
    ensures |LanguagesLine(languages)| >= 2 && LanguagesLine(languages)[..2] == "\U{25A0} "
    ensures Unescape(LanguagesLine(languages)[2..]) == Join(languages, "    ")
    ensures WellEscaped(LanguagesLine(languages)[2..])
  {
    var rest := Join(EscapeEach(languages), "    ");
    assert LanguagesLine(languages)[2..] == rest;
    SeparatorPlain();
    EscapedJoinRecovers(languages, "    ");
  }

  // ---------------------------------------------------------------------------
  // Experience entries.

  function EntryHeader(e: Experience): string {
    "#resume-entry[" + Escape(e.company) + "][" + Escape(e.role) + "]["
      + Escape(e.location) + "][" + Escape(e.period) + "]"
  }

  function BulletLine(b: string): string {
    "  - " + Escape(b)
  }

  function BulletLines(bullets: seq<string>): (r: seq<string>)
    ensures |r| == |bullets|
  {
    if bullets == [] then [] else [BulletLine(bullets[0])] + BulletLines(bullets[1..])
  }

  lemma {:induction false} BulletLinesAt(bullets: seq<string>, k: nat)
    requires k < |bullets|
    ensures BulletLines(bullets)[k] == BulletLine(bullets[k])
  {
    if k > 0 {
      BulletLinesAt(bullets[1..], k - 1);
    }
  }

  /** One experience entry: the `#resume-entry` call, a line feed, then the
      bullet lines joined with line feeds. */
  function EntryBlock(e: Experience): string {
    EntryHeader(e) + "\n" + Join(BulletLines(e.bullets), "\n")
  }

  /** The entries joined with a blank line between them. */
  function ExperienceText(es: seq<Experience>): string {
    Join(seq(|es|, k requires 0 <= k < |es| => EntryBlock(es[k])), "\n\n")
  }

  /** The lines of an entry: the header, then one line per bullet; an entry
      without bullets ends in an empty line. */
  function EntryLines(e: Experience): seq<string> {
    [EntryHeader(e)] + (if e.bullets == [] then [""] else BulletLines(e.bullets))
  }

  /** Each bullet line is `  - ` followed by the escaped bullet, which
      unescapes to the bullet. */
  lemma BulletLineRecovers(b: string)
    ensures |BulletLine(b)| >= 4 && BulletLine(b)[..4] == "  - "
    ensures Unescape(BulletLine(b)[4..]) == b
  {
    assert BulletLine(b)[4..] == Escape(b);
    UnescapeEscape(b);
  }

  lemma EntryLiteralsOneLine()
    ensures OneLine("#resume-entry[") && OneLine("][") && OneLine("]") && OneLine("  - ")
  {
  }

  lemma EntryHeaderOneLine(e: Experience)
    requires EntryOneLine(e)
    ensures OneLine(EntryHeader(e))
  {
    EntryLiteralsOneLine();
    EscapeOneLine(e.company);
    EscapeOneLine(e.role);
    EscapeOneLine(e.location);
    EscapeOneLine(e.period);
  }

  lemma BulletLinesOneLine(bullets: seq<string>)
    requires forall j :: 0 <= j < |bullets| ==> OneLine(bullets[j])
    ensures forall j :: 0 <= j < |bullets| ==> OneLine(BulletLines(bullets)[j])
  {
    forall j | 0 <= j < |bullets| ensures OneLine(BulletLines(bullets)[j]) {
      BulletLinesAt(bullets, j);
      EntryLiteralsOneLine();
      EscapeOneLine(bullets[j]);
    }
  }

  /** With no line feed in its fields, an entry block splits into the header
      line and one line per bullet (or one empty line). */
  lemma EntryBlockLines(e: Experience)
    requires EntryOneLine(e)
    ensures Lines(EntryBlock(e)) == EntryLines(e)
  {
    var bl := BulletLines(e.bullets);
    EntryHeaderOneLine(e);
    BulletLinesOneLine(e.bullets);
    SplitAppend(EntryHeader(e), '\n', Join(bl, "\n"));
    LinesOfOneLine(EntryHeader(e));
    if bl == [] {
      assert Lines(Join(bl, "\n")) == [""];
    } else {
      SplitJoin(bl, '\n');
    }
  }

  // ---------------------------------------------------------------------------
  // Education entries.

  function EducationFirstLine(ed: DatedEducation): string {
    "*" + Escape(ed.degree) + "* #h(1fr) " + Escape(ed.startDate) + " - " + Escape(ed.endDate)
  }

  /** The status suffix appears only for a truthy status. */
  function EducationSecondLine(ed: DatedEducation): string {
    Escape(ed.institution) + " #h(1fr) "
      + (if Truthy(ed.status) then "_(" + Escape(ed.status.value) + ")_" else "")
  }

  function EducationBlock(ed: DatedEducation): string {
    EducationFirstLine(ed) + "\n" + EducationSecondLine(ed)
  }

  function EducationText(eds: seq<DatedEducation>): string {
    Join(seq(|eds|, k requires 0 <= k < |eds| => EducationBlock(eds[k])), "\n\n")
  }

  function EducationEntryLines(ed: DatedEducation): seq<string> {
    [EducationFirstLine(ed), EducationSecondLine(ed)]
  }

  /** The second line ends with the italic status `_(...)_` exactly when the
      status is truthy, and the escaped status there unescapes to it. */
  lemma EducationStatus(ed: DatedEducation)
    ensures var l := EducationSecondLine(ed);
      Truthy(ed.status) <==> (|l| >= 2 && l[|l| - 2..] == ")_")
    ensures Truthy(ed.status) ==>
      var l := EducationSecondLine(ed);
      var s := Escape(ed.status.value);
      |l| >= |s| + 2 && Unescape(l[|l| - |s| - 2..|l| - 2]) == ed.status.value
  {
    var l := EducationSecondLine(ed);
    var head := Escape(ed.institution) + " #h(1fr) ";
    if Truthy(ed.status) {
      var s := Escape(ed.status.value);
      assert l == head + "_(" + s + ")_";
      assert l[|l| - |s| - 2..|l| - 2] == s;
      UnescapeEscape(ed.status.value);
    } else {
      assert l == head;
      assert l[|l| - 2..] == ") ";
    }
  }

  lemma EducationLiteralsOneLine()
    ensures OneLine("*") && OneLine("* #h(1fr) ") && OneLine(" - ")
    ensures OneLine(" #h(1fr) ") && OneLine("_(") && OneLine(")_") && OneLine("")
  {
  }

  lemma EducationBlockLines(ed: DatedEducation)
    requires EducationOneLine(ed)
    ensures Lines(EducationBlock(ed)) == EducationEntryLines(ed)
  {
    var first, second := EducationFirstLine(ed), EducationSecondLine(ed);
    EducationLiteralsOneLine();
    assert OneLine(first) by {
      EscapeOneLine(ed.degree);
      EscapeOneLine(ed.startDate);
      EscapeOneLine(ed.endDate);
    }
    assert OneLine(second) by {
      EscapeOneLine(ed.institution);
      if Truthy(ed.status) {
        EscapeOneLine(ed.status.value);
      }
    }
    SplitAppend(first, '\n', second);
    LinesOfOneLine(first);
    LinesOfOneLine(second);
  }

  // ---------------------------------------------------------------------------
  // The whole document.

  /** The fixed page setup and the two helper definitions, up to the line
      that opens the centred header. */
  const PreambleLines: seq<string> := [
    "#set page(margin: (x: 0.75in, y: 0.75in))",
    "#set text(font: \"New Computer Modern\", size: 10pt)",
    "#set par(justify: true)",
    "",
    "#let section(title) = {",
    "  v(8pt)",
    "  text(weight: \"bold\", size: 11pt)[#title]",
    "  v(-4pt)",
    "  line(length: 100%, stroke: 0.5pt)",
    "  v(4pt)",
    "}",
    "",
    "#let resume-entry(company, role, location, period) = {",
    "  grid(",
    "    columns: (1fr, auto),",
    "    align: (left, right),",
    "    [*#company* | #role | #location],",
    "    [#period]",
    "  )",
    "}",
    "",
    "// Header",
    "#align(center)["
  ]

  const NameLinePrefix := "  #text(size: 18pt, weight: \"bold\")["

  /** The lines from the name down to the experience heading. */
  function HeaderLines(p: Profile, t: TailoredResume): seq<string> {
    HeaderLinesWith(Escape(p.name), Contact(p), Escape(t.summary), SkillsLine(t.skills))
  }

  /** The header lines around the escaped name, the contact line, the
      escaped summary and the skills line. */
  function HeaderLinesWith(name: string, contact: string, summary: string, skills: string): seq<string> {
    [
      NameLinePrefix + name + "]",
      "  #v(-6pt)",
      "  " + contact,
      "]",
      "",
      "#v(4pt)",
      summary,
      "",
      "#section[Main technologies & Skills]",
      skills,
      "",
      "#section[Professional Experience]"
    ]
  }

  const MiddleLines: seq<string> := ["", "#section[Education]"]

  function TailLines(t: TailoredResume): seq<string> {
    TailLinesWith(LanguagesLine(t.languages))
  }

  /** The languages heading and line, and the final empty line. */
  function TailLinesWith(languages: string): seq<string> {
    ["", "#section[Languages]", languages, ""]
  }

  /** The document `generateTypst` returns. */
  function TypstOf(p: Profile, t: TailoredResume): string {
    Join(PreambleLines + (HeaderLines(p, t) + ([ExperienceText(t.experience)]
      + (MiddleLines + ([EducationText(t.education)] + TailLines(t))))), "\n")
  }

  /** `generateTypst`: escape the name and summary, collect the contact
      parts, render each list, and fill in the template. */
  method GenerateTypst(p: Profile, t: TailoredResume) returns (doc: string)
    ensures doc == TypstOf(p, t)
  {
    var name := Escape(p.name);
    var summary := Escape(t.summary);
    var contactParts := ContactParts(p);
    var contact := Join(contactParts, " | ");
    var skills := SkillsLine(t.skills);
    var experience := ExperienceText(t.experience);
    var education := EducationText(t.education);
    var languages := LanguagesLine(t.languages);
    doc := Join(PreambleLines + (HeaderLinesWith(name, contact, summary, skills) + ([experience]
      + (MiddleLines + ([education] + TailLinesWith(languages))))), "\n");
  }

  /** Every document opens with the same page setup and helper definitions. */
  lemma TypstPreamble(p: Profile, t: TailoredResume)
    ensures StartsWith(TypstOf(p, t), Join(PreambleLines, "\n") + "\n")
  {
    var rest := HeaderLines(p, t) + ([ExperienceText(t.experience)]
      + (MiddleLines + ([EducationText(t.education)] + TailLines(t))));
    JoinAppend(PreambleLines, rest, "\n");
    var pre := Join(PreambleLines, "\n") + "\n";
    assert TypstOf(p, t) == pre + Join(rest, "\n");
    assert TypstOf(p, t)[..|pre|] == pre;
  }

  /** The profile fields the header shows contain no line feed. */
  predicate ProfileOneLine(p: Profile) {
    OneLine(p.name)
    && (p.email.Some? ==> OneLine(p.email.value))
    && (p.phone.Some? ==> OneLine(p.phone.value))
    && (p.github.Some? ==> OneLine(p.github.value))
    && (p.linkedin.Some? ==> OneLine(p.linkedin.value))
    && (p.location.Some? ==> OneLine(p.location.value))
  }

  /** No text of the tailored resume contains a line feed. */
  predicate TailoredOneLine(t: TailoredResume) {
    OneLine(t.summary)
    && (forall k :: 0 <= k < |t.skills| ==> OneLine(t.skills[k]))
    && (forall k :: 0 <= k < |t.languages| ==> OneLine(t.languages[k]))
    && (forall k :: 0 <= k < |t.experience| ==> EntryOneLine(t.experience[k]))
    && (forall k :: 0 <= k < |t.education| ==> EducationOneLine(t.education[k]))
  }

  lemma LinkOneLine(v: string)
    requires OneLine(v)
    ensures OneLine(Link(v))
  {
    EscapeOneLine(v);
    LinkLiteralsOneLine();
  }

  lemma ContactOneLine(p: Profile)
    requires ProfileOneLine(p)
    ensures OneLine(Contact(p))
  {
    var slots := ContactSlots(p);
    var idx := CollectSources(slots, RenderSlot);
    forall k | 0 <= k < |ContactPartsOf(p)| ensures OneLine(ContactPartsOf(p)[k]) {
      var slot := slots[idx[k]];
      if slot.1 {
        LinkOneLine(slot.0.value);
      } else {
        EscapeOneLine(slot.0.value);
      }
    }
    SeparatorsOneLine();
    JoinOneLine(ContactPartsOf(p), " | ");
  }

  lemma NameLineOneLine(name: string)
    requires OneLine(name)
    ensures OneLine(NameLinePrefix + Escape(name) + "]")
  {
    EscapeOneLine(name);
    NameLinePrefixOneLine();
  }

  lemma LinkLiteralsOneLine()
    ensures OneLine("#link(\"https://") && OneLine("\")[") && OneLine("]")
  {
  }

  lemma SeparatorsOneLine()
    ensures OneLine(" | ") && OneLine(", ") && OneLine("    ") && OneLine("\U{25A0} ")
  {
  }

  lemma NameLinePrefixOneLine()
    ensures OneLine(NameLinePrefix)
  {
  }

  lemma HeadingsOneLine()
    ensures OneLine("#section[Main technologies & Skills]")
    ensures OneLine("#section[Professional Experience]")
  {
  }

  lemma ShortLinesOneLine()
    ensures OneLine("  #v(-6pt)") && OneLine("#v(4pt)") && OneLine("  ") && OneLine("")
    ensures OneLine("#section[Education]") && OneLine("#section[Languages]")
  {
  }

  lemma MiddleOneLine()
    ensures forall k :: 0 <= k < |MiddleLines| ==> OneLine(MiddleLines[k])
  {
    ShortLinesOneLine();
  }

  lemma HeaderOneLine(p: Profile, t: TailoredResume)
    requires ProfileOneLine(p) && TailoredOneLine(t)
    ensures forall k :: 0 <= k < |HeaderLines(p, t)| ==> OneLine(HeaderLines(p, t)[k])
  {
    NameLineOneLine(p.name);
    EscapeOneLine(t.summary);
    ContactOneLine(p);
    EscapeEachOneLine(t.skills);
    SeparatorsOneLine();
    ShortLinesOneLine();
    JoinOneLine(EscapeEach(t.skills), ", ");
    HeadingsOneLine();
  }

  lemma TailOneLine(t: TailoredResume)
    requires TailoredOneLine(t)
    ensures forall k :: 0 <= k < |TailLines(t)| ==> OneLine(TailLines(t)[k])
  {
    EscapeEachOneLine(t.languages);
    SeparatorsOneLine();
    ShortLinesOneLine();
    JoinOneLine(EscapeEach(t.languages), "    ");
  }

  /** The experience section as lines: each entry's lines, with a blank line
      between entries; a single empty line when there are none. */
  function ExperienceLines(es: seq<Experience>): seq<string> {
    Stacked(seq(|es|, k requires 0 <= k < |es| => EntryLines(es[k])))
  }

  /** The education section as lines: two per entry, with a blank line
      between entries; a single empty line when there are none. */
  function EducationLines(eds: seq<DatedEducation>): seq<string> {
    Stacked(seq(|eds|, k requires 0 <= k < |eds| => EducationEntryLines(eds[k])))
  }

  lemma ExperienceTextLines(es: seq<Experience>)
    requires forall k :: 0 <= k < |es| ==> EntryOneLine(es[k])
    ensures Lines(ExperienceText(es)) == ExperienceLines(es)
  {
    var bs := seq(|es|, k requires 0 <= k < |es| => EntryBlock(es[k]));
    var ls := seq(|es|, k requires 0 <= k < |es| => EntryLines(es[k]));
    forall k | 0 <= k < |es| ensures Lines(bs[k]) == ls[k] {
      EntryBlockLines(es[k]);
    }
    LinesJoinBlank(bs, ls);
  }

  lemma EducationTextLines(eds: seq<DatedEducation>)
    requires forall k :: 0 <= k < |eds| ==> EducationOneLine(eds[k])
    ensures Lines(EducationText(eds)) == EducationLines(eds)
  {
    var bs := seq(|eds|, k requires 0 <= k < |eds| => EducationBlock(eds[k]));
    var ls := seq(|eds|, k requires 0 <= k < |eds| => EducationEntryLines(eds[k]));
    forall k | 0 <= k < |eds| ensures Lines(bs[k]) == ls[k] {
      EducationBlockLines(eds[k]);
    }
    LinesJoinBlank(bs, ls);
  }

  /** The chunks from the experience text on, as lines. */
  lemma SectionsLines(t: TailoredResume)
    requires TailoredOneLine(t)
    ensures LinesOfAll([ExperienceText(t.experience)] + (MiddleLines
      + ([EducationText(t.education)] + TailLines(t))))
      == ExperienceLines(t.experience) + (MiddleLines
      + (EducationLines(t.education) + TailLines(t)))
  {
    var r5 := [EducationText(t.education)] + TailLines(t);
    var r4 := MiddleLines + r5;
    LinesOfAllAppend([ExperienceText(t.experience)], r4);
    ExperienceTextLines(t.experience);
    LinesOfAllAppend(MiddleLines, r5);
    MiddleOneLine();
    LinesOfAllOneLine(MiddleLines);
    LinesOfAllAppend([EducationText(t.education)], TailLines(t));
    EducationTextLines(t.education);
    TailOneLine(t);
    LinesOfAllOneLine(TailLines(t));
  }

  /** When no field contains a line feed, the document is, line by line: the
      preamble, the centred name, the contact line, the summary, the skills
      line under its heading, every experience entry (header line, then one
      line per bullet) with blank lines between entries, every education
      entry as two lines, and the languages line, ending in a line feed. */
  lemma TypstLines(p: Profile, t: TailoredResume)
    requires ProfileOneLine(p) && TailoredOneLine(t)
    ensures Lines(TypstOf(p, t)) == LinesOfAll(PreambleLines) + (HeaderLines(p, t)
      + (ExperienceLines(t.experience) + (MiddleLines
      + (EducationLines(t.education) + TailLines(t)))))
  {
    var r3 := [ExperienceText(t.experience)] + (MiddleLines
      + ([EducationText(t.education)] + TailLines(t)));
    var r2 := HeaderLines(p, t) + r3;
    LinesOfJoin(PreambleLines + r2);
    LinesOfAllAppend(PreambleLines, r2);
    LinesOfAllAppend(HeaderLines(p, t), r3);
    HeaderOneLine(p, t);
    LinesOfAllOneLine(HeaderLines(p, t));
    SectionsLines(t);
  }
}
