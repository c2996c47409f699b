/** `generateResumeTemplate`: the Markdown skeleton written for a resume
    extracted from a PDF. It lists every section the parser reads, with
    empty labels and placeholder entries, and appends the extracted text
    verbatim under a separate heading for reference. */
module ResumeTemplate {
  import opened Wrappers
  import opened Text
  import opened Layout
  import opened Seqs
  import opened Sections
  import opened LazyRegex
  import opened ResumeModel
  import opened ParseResume

  /** Line `i` of the fixed text in front of the extracted text. */
  function TemplateLine(i: nat): string
    requires i < 28
  {
    if i < 8 then ProfileLine(i)
    else if i < 12 then SkillsLine(i)
    else if i < 17 then ExperienceLine(i)
    else if i < 21 then EducationLine(i)
    else LastLine(i)
  }

  /** The profile section: its heading and five labels with no value. */
  function ProfileLine(i: nat): string {
    match i
      case 0 => "# " + "PROFILE"
      case 2 => "**Name**:"
      case 3 => "**Email**:"
      case 4 => "**GitHub**:"
      case 5 => "**LinkedIn**:"
      case 6 => "**Summary**:"
      case _ => ""
  }

  /** The skills section: its heading and a lone dash. */
  function SkillsLine(i: nat): string {
    match i
      case 8 => "# " + "MAIN TECHS AND SKILLS"
      case 10 => "-"
      case _ => ""
  }

  /** The experience section: its heading, a placeholder entry header and a
      lone dash. */
  function ExperienceLine(i: nat): string {
    match i
      case 12 => "# " + "PROFESSIONAL EXPERIENCE"
      case 14 => "## " + ExperienceHeader()
      case 15 => "-"
      case _ => ""
  }

  /** The education section: its heading and a placeholder entry header. */
  function EducationLine(i: nat): string {
    match i
      case 17 => "# " + "EDUCATION"
      case 19 => "## " + EducationHeader()
      case _ => ""
  }

  /** The languages section with its lone dash, the `---` rule and the
      heading over the extracted text. */
  function LastLine(i: nat): string {
    match i
      case 21 => "# " + "LANGUAGES"
      case 23 => "-"
      case 25 => "---"
      case 26 => "# " + ExtractedTitle()
      case _ => ""
  }

  /** The fixed lines, from `# PROFILE` to the empty line under the
      extracted-text heading. */
  function TemplateLines(): (r: seq<string>)
    ensures |r| == 28
    ensures forall k :: 0 <= k < 28 ==> r[k] == TemplateLine(k)
  {
    seq(28, k requires 0 <= k < 28 => TemplateLine(k))
  }

  /** What `generateResumeTemplate` returns: the fixed lines, the extracted
      text and a final line feed. */
  function ResumeTemplate(extractedText: string): string {
    Join(TemplateLines() + [extractedText, ""], "\n")
  }

  /** The text in front of the extracted text. */
  function TemplatePrefix(): string {
    Join(TemplateLines(), "\n") + "\n"
  }

  // ---------------------------------------------------------------------------
  // The output as text.

  /** The output is the fixed prefix, the extracted text as given (no
      character of it is escaped or changed) and one line feed. */
  lemma TemplateFrame(extractedText: string)
    ensures ResumeTemplate(extractedText) == TemplatePrefix() + extractedText + "\n"
  {
    JoinClosed(TemplateLines(), extractedText);
  }

  /** The extracted text can be read back from the output, so different
      texts give different outputs. */
  lemma ExtractedTextRecovered(extractedText: string)
    ensures var out := ResumeTemplate(extractedText);
      |TemplatePrefix()| + 1 <= |out|
      && out[|TemplatePrefix()|..|out| - 1] == extractedText
  {
    TemplateFrame(extractedText);
  }

  lemma TemplateInjective(x1: string, x2: string)
    requires ResumeTemplate(x1) == ResumeTemplate(x2)
    ensures x1 == x2
  {
    ExtractedTextRecovered(x1);
    ExtractedTextRecovered(x2);
  }

  /** For an empty extracted text the output is the prefix and a line feed. */
  lemma EmptyExtractedText()
    ensures ResumeTemplate("") == TemplatePrefix() + "\n"
  {
    TemplateFrame("");
  }

  // ---------------------------------------------------------------------------
  // The output as lines.

  lemma OneLineAppend(a: string, b: string)
    requires OneLine(a) && OneLine(b)
    ensures OneLine(a + b)
  {
  }

  lemma LongLineOneLine()
    ensures OneLine(TemplateLine(26))
  {
    var a, b, c := "Extracted PDF Text ", "(for reference - ", "delete this section when done)";
    assert OneLine("# ") && OneLine(a) && OneLine(b) && OneLine(c);
    OneLineAppend(a, b);
    OneLineAppend(a + b, c);
    OneLineAppend("# ", a + b + c);
  }

  lemma ProfileLinesOneLine(k: nat)
    requires k < 8
    ensures OneLine(TemplateLine(k))
  {
  }

  lemma SkillsLinesOneLine(k: nat)
    requires 8 <= k < 12
    ensures OneLine(TemplateLine(k))
  {
  }

  lemma ExperienceLinesOneLine(k: nat)
    requires 12 <= k < 17
    ensures OneLine(TemplateLine(k))
  {
  }

  lemma EducationLinesOneLine(k: nat)
    requires 17 <= k < 21
    ensures OneLine(TemplateLine(k))
  {
  }

  lemma LastLinesOneLine(k: nat)
    requires 21 <= k < 28 && k != 26
    ensures OneLine(TemplateLine(k))
  {
  }

  lemma TemplateOneLine()
    ensures forall k :: 0 <= k < 28 ==> OneLine(TemplateLines()[k])
  {
    forall k | 0 <= k < 28 ensures OneLine(TemplateLines()[k]) {
      if k == 26 {
        LongLineOneLine();
      } else if k < 8 {
        ProfileLinesOneLine(k);
      } else if k < 12 {
        SkillsLinesOneLine(k);
      } else if k < 17 {
        ExperienceLinesOneLine(k);
      } else if k < 21 {
        EducationLinesOneLine(k);
      } else {
        LastLinesOneLine(k);
      }
    }
  }

  /** The output's lines: the 28 fixed lines, the extracted text's own lines
      and the empty line after the final line feed. */
  lemma TemplateLinesOf(extractedText: string)
    ensures Lines(ResumeTemplate(extractedText)) == TemplateLines() + (Lines(extractedText) + [""])
  {
    var tl := TemplateLines();
    LinesOfJoin(tl + [extractedText, ""]);
    LinesOfAllAppend(tl, [extractedText, ""]);
    TemplateOneLine();
    LinesOfAllOneLine(tl);
    LinesOfAllCons(extractedText, [""]);
    EmptyLines();
  }

  // ---------------------------------------------------------------------------
  // Headings.

  /** The titles the parser reads. */
  predicate ParsedTitle(t: string) {
    t == "PROFILE" || t == "MAIN TECHS AND SKILLS" || t == "PROFESSIONAL EXPERIENCE"
    || t == "EDUCATION" || t == "LANGUAGES"
  }

  lemma TitleOf(l: string, t: string)
    requires l == "# " + t && t != [] && IsTrimmed(t)
    ensures IsHeadingLine(l) && Title(l) == t
  {
    assert l[2..] == t;
    TrimOfTrimmed(t);
  }

  lemma ProfileHeading()
    ensures IsHeadingLine(TemplateLine(0)) && Title(TemplateLine(0)) == "PROFILE"
  {
    TitleOf(TemplateLine(0), "PROFILE");
  }

  lemma SkillsHeading()
    ensures IsHeadingLine(TemplateLine(8)) && Title(TemplateLine(8)) == "MAIN TECHS AND SKILLS"
  {
    TitleOf(TemplateLine(8), "MAIN TECHS AND SKILLS");
  }

  lemma ExperienceHeading()
    ensures IsHeadingLine(TemplateLine(12)) && Title(TemplateLine(12)) == "PROFESSIONAL EXPERIENCE"
  {
    TitleOf(TemplateLine(12), "PROFESSIONAL EXPERIENCE");
  }

  lemma EducationHeading()
    ensures IsHeadingLine(TemplateLine(17)) && Title(TemplateLine(17)) == "EDUCATION"
  {
    TitleOf(TemplateLine(17), "EDUCATION");
  }

  lemma LanguagesHeading()
    ensures IsHeadingLine(TemplateLine(21)) && Title(TemplateLine(21)) == "LANGUAGES"
  {
    TitleOf(TemplateLine(21), "LANGUAGES");
  }

  lemma ExtractedTitleTrimmed(a: string, b: string, c: string)
    requires a == "Extracted PDF Text " && b == "(for reference - " && c == "delete this section when done)"
    ensures a + b + c != [] && IsTrimmed(a + b + c) && |a + b + c| == 66
  {
    assert (a + b + c)[0] == a[0];
    assert (a + b + c)[|a + b + c| - 1] == c[|c| - 1];
  }

  lemma LongNotParsed(t: string)
    requires |t| > 23
    ensures !ParsedTitle(t)
  {
  }

  /** The heading over the extracted text has a title the parser ignores. */
  lemma ExtractedHeading()
    ensures IsHeadingLine(TemplateLine(26)) && !ParsedTitle(Title(TemplateLine(26)))
  {
    var a, b, c := "Extracted PDF Text ", "(for reference - ", "delete this section when done)";
    ExtractedTitleTrimmed(a, b, c);
    TitleOf(TemplateLine(26), a + b + c);
    LongNotParsed(a + b + c);
  }

  /** The heading lines of the fixed text, in order: the five the parser
      reads and the one over the extracted text. */
  lemma TemplateTitles()
    ensures IsHeadingLine(TemplateLine(0)) && Title(TemplateLine(0)) == "PROFILE"
    ensures IsHeadingLine(TemplateLine(8)) && Title(TemplateLine(8)) == "MAIN TECHS AND SKILLS"
    ensures IsHeadingLine(TemplateLine(12)) && Title(TemplateLine(12)) == "PROFESSIONAL EXPERIENCE"
    ensures IsHeadingLine(TemplateLine(17)) && Title(TemplateLine(17)) == "EDUCATION"
    ensures IsHeadingLine(TemplateLine(21)) && Title(TemplateLine(21)) == "LANGUAGES"
    ensures IsHeadingLine(TemplateLine(26)) && !ParsedTitle(Title(TemplateLine(26)))
  {
    ProfileHeading();
    SkillsHeading();
    ExperienceHeading();
    EducationHeading();
    LanguagesHeading();
    ExtractedHeading();
  }

  /** The other fixed lines are not heading lines; `## ` lines among them
      are entry headers. */
  lemma NotHeadingLine(k: nat)
    requires k < 28 && k != 0 && k != 8 && k != 12 && k != 17 && k != 21 && k != 26
    ensures !IsHeadingLine(TemplateLine(k))
  {
  }

  // ---------------------------------------------------------------------------
  // Sections.

  /** No line of the extracted text is a heading the parser reads, so the
      extracted text cannot replace one of the template's sections. */
  predicate KeepsSections(extractedText: string) {
    forall k :: 0 <= k < |Lines(extractedText)| && IsHeadingLine(Lines(extractedText)[k]) ==>
      !ParsedTitle(Title(Lines(extractedText)[k]))
  }

  /** Heading lines of the output: the six fixed ones, then only headings
      the parser ignores. */
  lemma HeadingAt(extractedText: string, m: nat)
    requires KeepsSections(extractedText)
    requires m < |Lines(ResumeTemplate(extractedText))| && IsHeadingLine(Lines(ResumeTemplate(extractedText))[m])
    ensures m < 28 ==> Lines(ResumeTemplate(extractedText))[m] == TemplateLine(m)
    ensures m < 28 ==> m == 0 || m == 8 || m == 12 || m == 17 || m == 21 || m == 26
    ensures ParsedTitle(Title(Lines(ResumeTemplate(extractedText))[m])) ==> m < 26
  {
    var lines := Lines(ResumeTemplate(extractedText));
    var xs := Lines(extractedText);
    TemplateLinesOf(extractedText);
    if m < 28 {
      assert lines[m] == TemplateLine(m);
      if m == 26 {
        ExtractedHeading();
      } else if !(m == 0 || m == 8 || m == 12 || m == 17 || m == 21) {
        NotHeadingLine(m);
      }
    } else if m < 28 + |xs| {
      assert lines[m] == xs[m - 28];
    }
  }

  /** The five sections the parser reads: the heading line and the line that
      ends the section. */
  predicate SectionBounds(i: nat, j: nat) {
    (i == 0 && j == 8) || (i == 8 && j == 12) || (i == 12 && j == 17)
    || (i == 17 && j == 21) || (i == 21 && j == 26)
  }

  lemma ParsedHeading(i: nat)
    requires i == 0 || i == 8 || i == 12 || i == 17 || i == 21
    ensures IsHeadingLine(TemplateLine(i)) && ParsedTitle(Title(TemplateLine(i)))
  {
    TemplateTitles();
  }

  /** No later heading line repeats the title of one of the five. */
  lemma LaterTitlesDiffer(extractedText: string, i: nat)
    requires KeepsSections(extractedText)
    requires i == 0 || i == 8 || i == 12 || i == 17 || i == 21
    ensures var lines := Lines(ResumeTemplate(extractedText));
      i < |lines| && lines[i] == TemplateLine(i)
      && forall m :: i < m < |lines| && IsHeadingLine(lines[m]) ==> Title(lines[m]) != Title(TemplateLine(i))
  {
    var lines := Lines(ResumeTemplate(extractedText));
    var t := Title(TemplateLine(i));
    FixedLines(extractedText);
    ParsedHeading(i);
    forall m | i < m < |lines| && IsHeadingLine(lines[m]) ensures Title(lines[m]) != t {
      HeadingAt(extractedText, m);
      if m < 28 {
        TitlesDiffer(i, m);
      }
    }
  }

  /** Each of the five titles differs from those of the heading lines below. */
  lemma TitlesDiffer(i: nat, m: nat)
    requires i == 0 || i == 8 || i == 12 || i == 17 || i == 21
    requires m == 0 || m == 8 || m == 12 || m == 17 || m == 21 || m == 26
    requires i < m
    ensures Title(TemplateLine(m)) != Title(TemplateLine(i))
  {
    TemplateTitles();
  }

  /** Between a section's heading and the next heading there is no heading
      line in the template. */
  lemma InteriorTemplate(i: nat, j: nat)
    requires SectionBounds(i, j)
    ensures IsHeadingLine(TemplateLine(j))
    ensures forall m :: i < m < j ==> !IsHeadingLine(TemplateLine(m))
  {
    TemplateTitles();
    forall m | i < m < j ensures !IsHeadingLine(TemplateLine(m)) {
      NotHeadingLine(m);
    }
  }

  /** Lines that open with the 28 fixed lines. */
  predicate OpensWithTemplate(lines: seq<string>) {
    28 < |lines| && forall m :: 0 <= m < 28 ==> lines[m] == TemplateLine(m)
  }

  /** The first 28 lines of the output are the template's. */
  lemma FixedLines(extractedText: string)
    ensures var lines := Lines(ResumeTemplate(extractedText));
      28 < |lines| && forall m :: 0 <= m < 28 ==> lines[m] == TemplateLine(m)
  {
    TemplateLinesOf(extractedText);
  }

  /** The output opens with `# PROFILE` and has the other four section
      headings and the two placeholder entry headers at fixed lines, in
      order, whatever the extracted text. */
  lemma TemplateHeadingLines(extractedText: string)
    ensures var lines := Lines(ResumeTemplate(extractedText));
      28 < |lines| && lines[0] == "# " + "PROFILE" && lines[8] == "# " + "MAIN TECHS AND SKILLS"
      && lines[12] == "# " + "PROFESSIONAL EXPERIENCE" && lines[14] == "## " + ExperienceHeader()
      && lines[17] == "# " + "EDUCATION" && lines[19] == "## " + EducationHeader()
      && lines[21] == "# " + "LANGUAGES"
  {
    FixedLines(extractedText);
    HeadingLinesOf(Lines(ResumeTemplate(extractedText)));
  }

  lemma HeadingLinesOf(lines: seq<string>)
    requires OpensWithTemplate(lines)
    ensures lines[0] == "# " + "PROFILE" && lines[8] == "# " + "MAIN TECHS AND SKILLS"
      && lines[12] == "# " + "PROFESSIONAL EXPERIENCE" && lines[14] == "## " + ExperienceHeader()
      && lines[17] == "# " + "EDUCATION" && lines[19] == "## " + EducationHeader()
      && lines[21] == "# " + "LANGUAGES"
  {
    assert lines[0] == TemplateLine(0) && lines[8] == TemplateLine(8) && lines[12] == TemplateLine(12);
    assert lines[14] == TemplateLine(14) && lines[17] == TemplateLine(17);
    assert lines[19] == TemplateLine(19) && lines[21] == TemplateLine(21);
  }

  /** The lines between a section's heading and the next heading are the
      template's own, and none of them is a heading line. */
  lemma InteriorLines(extractedText: string, i: nat, j: nat)
    requires SectionBounds(i, j)
    ensures var lines := Lines(ResumeTemplate(extractedText));
      j < |lines| && lines[i + 1..j] == TemplateLines()[i + 1..j]
      && IsHeadingLine(lines[j])
      && forall m :: i < m < j ==> !IsHeadingLine(lines[m])
  {
    FixedLines(extractedText);
    InteriorOf(Lines(ResumeTemplate(extractedText)), i, j);
  }

  lemma InteriorOf(lines: seq<string>, i: nat, j: nat)
    requires OpensWithTemplate(lines) && SectionBounds(i, j)
    ensures j < |lines| && lines[i + 1..j] == TemplateLines()[i + 1..j]
      && IsHeadingLine(lines[j])
      && forall m :: i < m < j ==> !IsHeadingLine(lines[m])
  {
    InteriorSlice(lines, i + 1, j);
    InteriorHeadings(lines, i, j);
  }

  lemma InteriorSlice(lines: seq<string>, p: nat, q: nat)
    requires OpensWithTemplate(lines) && p <= q <= 28
    ensures lines[p..q] == TemplateLines()[p..q]
  {
    var tl := TemplateLines();
    forall m | p <= m < q ensures lines[m] == tl[m] { }
  }

  lemma InteriorHeadings(lines: seq<string>, i: nat, j: nat)
    requires OpensWithTemplate(lines) && SectionBounds(i, j)
    ensures IsHeadingLine(lines[j]) && forall m :: i < m < j ==> !IsHeadingLine(lines[m])
  {
    InteriorTemplate(i, j);
    assert lines[j] == TemplateLine(j);
    forall m | i < m < j ensures !IsHeadingLine(lines[m]) {
      assert lines[m] == TemplateLine(m);
    }
  }

  /** Each of the five sections of the output holds the template's lines
      between its heading and the next, trimmed. */
  lemma TemplateSection(extractedText: string, i: nat, j: nat)
    requires KeepsSections(extractedText) && SectionBounds(i, j)
    ensures var sections := SectionsOf(ResumeTemplate(extractedText));
      var t := Title(TemplateLine(i));
      t in sections && sections[t] == Trim(Join(TemplateLines()[i + 1..j], "\n"))
  {
    var content := ResumeTemplate(extractedText);
    LaterTitlesDiffer(extractedText, i);
    InteriorLines(extractedText, i, j);
    ParsedHeading(i);
    SectionAt(content, i, j);
    assert Title(Lines(content)[i]) == Title(TemplateLine(i));
  }

  // ---------------------------------------------------------------------------
  // What the parser reads in each section.

  lemma JoinFramed(a: seq<string>)
    requires |a| >= 1
    ensures Join([""] + a + [""], "\n") == "\n" + Join(a, "\n") + "\n"
  {
    var j := Join(a, "\n");
    JoinAppend([""], a, "\n");
    JoinAppend([""] + a, [""], "\n");
    JoinSingle("", "\n");
    EmptyAround(j, "\n");
  }

  lemma JoinSingle(x: string, sep: string)
    ensures Join([x], sep) == x
  {
  }

  lemma EmptyAround(x: string, sep: string)
    ensures "" + sep + x + sep + "" == sep + x + sep
  {
  }

  /** The first and last characters of a join are those of its first and
      last parts. */
  lemma JoinFirst(a: seq<string>)
    requires |a| >= 1 && a[0] != []
    ensures Join(a, "\n") != [] && Join(a, "\n")[0] == a[0][0]
  {
  }

  lemma {:induction false} JoinLast(a: seq<string>)
    requires |a| >= 1 && a[|a| - 1] != []
    ensures Join(a, "\n") != [] && Join(a, "\n")[|Join(a, "\n")| - 1] == a[|a| - 1][|a[|a| - 1]| - 1]
  {
    if |a| > 1 {
      JoinLast(a[1..]);
    }
  }

  /** Lines between two empty lines, trimmed, are the lines themselves when
      they begin and end with a visible character. */
  lemma TrimFramed(a: seq<string>)
    requires |a| >= 1 && a[0] != [] && a[|a| - 1] != []
    requires !IsSpace(a[0][0]) && !IsSpace(a[|a| - 1][|a[|a| - 1]| - 1])
    ensures Trim(Join([""] + a + [""], "\n")) == Join(a, "\n")
  {
    JoinFramed(a);
    JoinFirst(a);
    JoinLast(a);
    TrimAround("\n", Join(a, "\n"), "\n");
  }

  /** A label with nothing after it: the line ends with its only colon. */
  predicate BareLabel(line: string) {
    |line| > 0 && line[|line| - 1] == ':' && '\n' !in line
    && forall i :: 0 <= i < |line| - 1 ==> line[i] != ':'
  }

  /** No key ending with a colon finds a value on a bare label. */
  lemma BareLabelNoValue(line: string, key: string)
    requires BareLabel(line) && |key| > 0 && key[|key| - 1] == ':'
    ensures LabelValue(line, key).None?
  {
    LabelValueSpec(line, key);
    match IndexOf(line, key)
    case Some(q) =>
      assert line[q..q + |key|][|key| - 1] == ':';
    case None =>
  }

  /** Lines that are all bare labels. */
  predicate BareLabels(a: seq<string>) {
    |a| >= 1 && forall k :: 0 <= k < |a| ==> BareLabel(a[k])
  }

  lemma BareLabelsNoValue(a: seq<string>, key: string)
    requires BareLabels(a)
    requires |key| > 0 && key[|key| - 1] == ':'
    ensures LastLabel(a, key).None?
  {
    forall k | 0 <= k < |a| ensures LabelValue(a[k], key).None? {
      BareLabelNoValue(a[k], key);
    }
    LastLabelNone(a, key);
  }

  /** Every profile key ends with a colon. */
  lemma KeysEndInColon()
    ensures NameKey[|NameKey| - 1] == ':' && PhoneKey[|PhoneKey| - 1] == ':'
    ensures LocationKey[|LocationKey| - 1] == ':' && GitHubKey[|GitHubKey| - 1] == ':'
    ensures LinkedInKey[|LinkedInKey| - 1] == ':' && EmailKey[|EmailKey| - 1] == ':'
    ensures SummaryKey[|SummaryKey| - 1] == ':'
  {
  }

  /** No profile label finds a value among bare labels. */
  lemma BareLabelsNoProfile(a: seq<string>)
    requires BareLabels(a)
    ensures ProfileFrom(a) == EmptyProfile
  {
    KeysEndInColon();
    BareLabelsNoValue(a, NameKey);
    BareLabelsNoValue(a, PhoneKey);
    BareLabelsNoValue(a, LocationKey);
    BareLabelsNoValue(a, GitHubKey);
    BareLabelsNoValue(a, LinkedInKey);
    BareLabelsNoValue(a, EmailKey);
    BareLabelsNoValue(a, SummaryKey);
  }

  /** Bare labels joined into a section are its non-blank lines again. */
  lemma BareLabelsLines(a: seq<string>)
    requires BareLabels(a)
    ensures Collect(Lines(Join(a, "\n")), KeepNonBlank) == a
  {
    SplitJoin(a, '\n');
    forall k | 0 <= k < |a| ensures KeepNonBlank(a[k]) == Some(a[k]) {
      assert !IsSpace(a[k][|a[k]| - 1]);
    }
    CollectTotal(a, KeepNonBlank, a);
  }

  /** A profile section made of bare labels only gives the empty profile. */
  lemma BareLabelsProfile(a: seq<string>)
    requires BareLabels(a)
    ensures ProfileOf(Join(a, "\n")) == EmptyProfile
  {
    BareLabelsLines(a);
    BareLabelsNoProfile(a);
  }

  lemma TemplateBareLabel(k: nat)
    requires 2 <= k < 7
    ensures BareLabel(TemplateLine(k))
  {
  }

  /** The profile section holds the five labels of the template, each with
      nothing after it, so the parsed profile is empty. */
  lemma ProfileSection()
    ensures var a := TemplateLines()[2..7];
      Trim(Join(TemplateLines()[1..8], "\n")) == Join(a, "\n") && BareLabels(a)
  {
    var a := TemplateLines()[2..7];
    assert TemplateLines()[1..8] == [""] + a + [""];
    forall k | 0 <= k < |a| ensures BareLabel(a[k]) {
      TemplateBareLabel(k + 2);
    }
    TrimFramed(a);
  }

  /** Lines after an empty line, trimmed, are the lines themselves when they
      begin and end with a visible character. */
  lemma TrimAfterEmpty(a: seq<string>)
    requires |a| >= 1 && a[0] != [] && a[|a| - 1] != []
    requires !IsSpace(a[0][0]) && !IsSpace(a[|a| - 1][|a[|a| - 1]| - 1])
    ensures Trim(Join([""] + a, "\n")) == Join(a, "\n")
  {
    JoinAppend([""], a, "\n");
    JoinFirst(a);
    JoinLast(a);
    assert Join([""] + a, "\n") == "\n" + Join(a, "\n") + "";
    TrimAround("\n", Join(a, "\n"), "");
  }

  /** The lone dash of the skills section is one empty skill. */
  lemma SkillsSection()
    ensures Trim(Join(TemplateLines()[9..12], "\n")) == "-"
    ensures BulletList("-") == [""]
  {
    assert TemplateLines()[9..12] == [""] + ["-"] + [""];
    TrimFramed(["-"]);
    LinesOfOneLine("-");
    DashBullet();
  }

  /** The languages section: a lone dash, an empty line and the `---` rule
      above the extracted text. */
  lemma LanguagesSection()
    ensures Trim(Join(TemplateLines()[22..26], "\n")) == Join(["-", "", "---"], "\n")
  {
    var a := ["-", "", "---"];
    assert TemplateLines()[22..26] == [""] + a;
    TrimAfterEmpty(a);
  }

  /** Bullets of three lines: those of each line in turn. */
  lemma BulletsOfThree(p: string, q: string, r: string)
    ensures Bullets([p, q, r]) == Bullets([p]) + Bullets([q]) + Bullets([r])
  {
    assert [p, q, r] == [p] + [q] + [r];
    CollectAppend([p] + [q], [r], BulletOf);
    CollectAppend([p], [q], BulletOf);
  }

  lemma DashBullet()
    ensures Bullets(["-"]) == [""]
  {
    BulletTextExamples();
    CollectOne("-", BulletOf);
  }

  lemma RuleBullet()
    ensures Bullets(["---"]) == ["--"]
  {
    BulletTextExamples();
    CollectOne("---", BulletOf);
  }

  lemma EmptyLineNoBullet()
    ensures Bullets([""]) == []
  {
    CollectOne("", BulletOf);
  }

  /** The dash is an empty language and the rule, a dash followed by `--`,
      is a second language `--`. */
  lemma LanguagesBullets()
    ensures BulletList(Join(["-", "", "---"], "\n")) == ["", "--"]
  {
    SplitJoin(["-", "", "---"], '\n');
    BulletsOfThree("-", "", "---");
    DashBullet();
    RuleBullet();
    EmptyLineNoBullet();
  }

  /** The pieces of a section whose first line is an entry header. */
  lemma HeaderFragments(e: string)
    requires OneLine(e)
    ensures Fragments(["## " + e]) == [[""], [e]]
  {
    var h := "## " + e;
    assert StartsWith(h, "## ") && h[3..] == e;
  }

  lemma HeaderBodyFragments(e: string, b: string)
    requires OneLine(e) && !StartsWith(b, "## ")
    ensures Fragments(["## " + e, b]) == [[""], [e, b]]
  {
    HeaderFragments(e);
    var r := Fragments(["## " + e]);
    assert ["## " + e, b][..1] == ["## " + e];
    assert r[..1] == [[""]];
    assert r[1] + [b] == [e, b];
  }

  lemma PairEntries(e: string)
    requires !IsBlank(e)
    ensures Collect(["", e], KeepNonBlank) == [e]
  {
    assert ["", e] == [""] + [e];
    CollectAppend([""], [e], KeepNonBlank);
    CollectOne("", KeepNonBlank);
    CollectOne(e, KeepNonBlank);
  }

  /** A section holding only an entry header has that one entry. */
  lemma EntriesOfHeader(e: string)
    requires OneLine(e) && !IsBlank(e)
    ensures Entries("## " + e) == [e]
  {
    var h := "## " + e;
    assert OneLine(h);
    LinesOfOneLine(h);
    HeaderFragments(e);
    assert JoinEach([[""], [e]]) == ["", e];
    PairEntries(e);
  }

  /** A section holding an entry header and one more line has one entry:
      the header without its marker, and the line. */
  lemma EntriesOfHeaderBody(e: string, b: string)
    requires OneLine(e) && OneLine(b) && !IsBlank(e) && !StartsWith(b, "## ")
    ensures Entries(Join(["## " + e, b], "\n")) == [Join([e, b], "\n")]
  {
    var h := "## " + e;
    assert OneLine(h);
    SplitJoin([h, b], '\n');
    HeaderBodyFragments(e, b);
    assert JoinEach([[""], [e, b]]) == ["", Join([e, b], "\n")];
    assert !IsBlank(Join([e, b], "\n")) by {
      var i :| 0 <= i < |e| && !IsSpace(e[i]);
      assert Join([e, b], "\n") == e + "\n" + b;
      assert (e + "\n" + b)[i] == e[i];
    }
    PairEntries(Join([e, b], "\n"));
  }

  /** A visible field: not empty, no white space at its ends, no bar and no
      line break. */
  predicate Field(a: string) {
    a != [] && IsTrimmed(a) && '|' !in a && '\n' !in a
  }

  /** The fields of a barred header keep their spaces around the bars, and
      trimming them gives the fields back. */
  lemma BarredSegments(a: string, b: string, c: string)
    requires Field(a) && Field(b) && Field(c)
    ensures var h := a + " | " + b + " | " + c;
      OneLine(h) && Trim(h) == h && !IsBlank(h)
      && Split(h, '|') == [a + " ", " " + b + " ", " " + c]
      && !IsBlank(a + " ") && !IsBlank(" " + b + " ") && !IsBlank(" " + c)
      && Trim(a + " ") == a && Trim(" " + b + " ") == b && Trim(" " + c) == c
  {
    var h := a + " | " + b + " | " + c;
    assert h[0] == a[0] && h[|h| - 1] == c[|c| - 1];
    TrimOfTrimmed(h);
    SplitThreeBarred(a, b, c);
    assert "" + a + " " == a + " " && " " + c + "" == " " + c;
    TrimAround("", a, " ");
    TrimAround(" ", b, " ");
    TrimAround(" ", c, "");
  }

  /** An entry whose header has three fields: company, role and period with
      an empty location, and the bullets of its other line. */
  lemma ThreeFieldExperience(a: string, b: string, c: string, body: string)
    requires Field(a) && Field(b) && Field(c) && OneLine(body)
    ensures ExperienceOf(Join([a + " | " + b + " | " + c, body], "\n"))
      == Some(Experience(a, b, "", c, Bullets([body])))
  {
    var h := a + " | " + b + " | " + c;
    var entry := Join([h, body], "\n");
    BarredSegments(a, b, c);
    TwoLines(h, body);
    assert HeaderSegments(entry) == [a + " ", " " + b + " ", " " + c];
    ExperienceThreeFields(entry);
  }

  /** Two one-line texts joined by a line feed are its two lines. */
  lemma TwoLines(h: string, body: string)
    requires OneLine(h) && OneLine(body)
    ensures Lines(Join([h, body], "\n")) == [h, body]
    ensures Lines(Join([h, body], "\n"))[1..] == [body]
  {
    SplitJoin([h, body], '\n');
  }

  /** An entry whose header has three fields: degree, institution and year. */
  lemma ThreeFieldEducation(a: string, b: string, c: string)
    requires Field(a) && Field(b) && Field(c)
    ensures EducationOf(a + " | " + b + " | " + c) == Some(Education(a, b, c))
  {
    var h := a + " | " + b + " | " + c;
    BarredSegments(a, b, c);
    LinesOfOneLine(h);
    assert HeaderSegments(h)[2..] == [" " + c];
    EducationFields(h);
  }

  /** The placeholder entry header of the experience section. */
  function ExperienceHeader(): string {
    "Company" + " | " + "Role" + " | " + "Start - End"
  }

  /** The title of the heading over the extracted text. */
  function ExtractedTitle(): string {
    "Extracted PDF Text " + "(for reference - " + "delete this section when done)"
  }

  /** The placeholder entry header of the education section. */
  function EducationHeader(): string {
    "Degree" + " | " + "Institution" + " | " + "Year"
  }

  lemma ExperiencePlaceholders()
    ensures Field("Company") && Field("Role") && Field("Start - End")
  {
  }

  lemma EducationPlaceholders()
    ensures Field("Degree") && Field("Institution") && Field("Year")
  {
  }

  /** The experience section: the placeholder header and a lone dash. */
  lemma ExperienceSection()
    ensures Trim(Join(TemplateLines()[13..17], "\n")) == Join(["## " + ExperienceHeader(), "-"], "\n")
  {
    var a := ["## " + ExperienceHeader(), "-"];
    assert TemplateLines()[13..17] == [""] + a + [""];
    TrimFramed(a);
  }

  /** It holds one experience: the placeholder company, role and period,
      no location and one empty bullet. */
  lemma ExperienceEntries()
    ensures Collect(Entries(Join(["## " + ExperienceHeader(), "-"], "\n")), ExperienceOf)
      == [Experience("Company", "Role", "", "Start - End", [""])]
  {
    ExperiencePlaceholders();
    BarredSegments("Company", "Role", "Start - End");
    EntriesOfHeaderBody(ExperienceHeader(), "-");
    ThreeFieldExperience("Company", "Role", "Start - End", "-");
    DashBullet();
    CollectOne(Join([ExperienceHeader(), "-"], "\n"), ExperienceOf);
  }

  /** The education section: the placeholder header alone. */
  lemma EducationSection()
    ensures Trim(Join(TemplateLines()[18..21], "\n")) == "## " + EducationHeader()
  {
    var a := ["## " + EducationHeader()];
    assert TemplateLines()[18..21] == [""] + a + [""];
    TrimFramed(a);
  }

  /** It holds one education: the placeholder degree, institution and year. */
  lemma EducationEntries()
    ensures Collect(Entries("## " + EducationHeader()), EducationOf)
      == [Education("Degree", "Institution", "Year")]
  {
    EducationPlaceholders();
    BarredSegments("Degree", "Institution", "Year");
    EntriesOfHeader(EducationHeader());
    ThreeFieldEducation("Degree", "Institution", "Year");
    CollectOne(EducationHeader(), EducationOf);
  }

  // ---------------------------------------------------------------------------
  // The template read back by the parser.

  lemma TemplateProfile(extractedText: string)
    requires KeepsSections(extractedText)
    ensures ProfileOf(SectionOrEmpty(SectionsOf(ResumeTemplate(extractedText)), "PROFILE")) == EmptyProfile
  {
    ProfileHeading();
    TemplateSection(extractedText, 0, 8);
    ProfileSection();
    BareLabelsProfile(TemplateLines()[2..7]);
  }

  lemma TemplateSkills(extractedText: string)
    requires KeepsSections(extractedText)
    ensures BulletList(SectionOrEmpty(SectionsOf(ResumeTemplate(extractedText)), "MAIN TECHS AND SKILLS")) == [""]
  {
    SkillsHeading();
    TemplateSection(extractedText, 8, 12);
    SkillsSection();
  }

  lemma TemplateExperience(extractedText: string)
    requires KeepsSections(extractedText)
    ensures Collect(Entries(SectionOrEmpty(SectionsOf(ResumeTemplate(extractedText)), "PROFESSIONAL EXPERIENCE")), ExperienceOf)
      == [Experience("Company", "Role", "", "Start - End", [""])]
  {
    ExperienceHeading();
    TemplateSection(extractedText, 12, 17);
    ExperienceSection();
    ExperienceEntries();
  }

  lemma TemplateEducation(extractedText: string)
    requires KeepsSections(extractedText)
    ensures Collect(Entries(SectionOrEmpty(SectionsOf(ResumeTemplate(extractedText)), "EDUCATION")), EducationOf)
      == [Education("Degree", "Institution", "Year")]
  {
    EducationHeading();
    TemplateSection(extractedText, 17, 21);
    EducationSection();
    EducationEntries();
  }

  lemma TemplateLanguages(extractedText: string)
    requires KeepsSections(extractedText)
    ensures BulletList(SectionOrEmpty(SectionsOf(ResumeTemplate(extractedText)), "LANGUAGES")) == ["", "--"]
  {
    LanguagesHeading();
    TemplateSection(extractedText, 21, 26);
    LanguagesSection();
    LanguagesBullets();
  }

  /** The resume the parser reads from the template: an empty profile, one
      empty skill, the placeholder experience (with an empty location and
      one empty bullet), the placeholder education and two languages, an
      empty one from the lone dash and `--` from the `---` rule. This holds
      for every extracted text in which no line is a `# ` heading with one
      of the five section titles; such a line would start a section of the
      same name below the template's, and the later section wins. */
  lemma TemplateRoundTrip(extractedText: string)
    requires KeepsSections(extractedText)
    ensures ResumeOf(ResumeTemplate(extractedText)) == Resume(
      EmptyProfile,
      [""],
      [Experience("Company", "Role", "", "Start - End", [""])],
      [Education("Degree", "Institution", "Year")],
      ["", "--"])
  {
    TemplateProfile(extractedText);
    TemplateSkills(extractedText);
    TemplateExperience(extractedText);
    TemplateEducation(extractedText);
    TemplateLanguages(extractedText);
  }
}
