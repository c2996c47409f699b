/** `buildPrompt`: the text sent to the language model, made of the fixed
    rules, the parsed resume as markdown, the job description and the fixed
    description of the JSON answer. Resume values and the job description
    are inserted verbatim, without escaping.

    The template literal is written here as its list of lines joined with
    line feeds, which is the same text. Resume text splices into it as whole
    chunks, so a value holding a line feed adds lines of its own. */
module PromptBuilder {
  import opened Wrappers
  import opened Text
  import opened Layout
  import opened Seqs
  import opened LazyRegex
  import opened ResumeModel
  import opened ParseResume

  /** The fixed rules and instructions, up to and including the empty line
      under `## Current Resume`. */
  function RulesLine(i: nat): string
    requires i < 29
  {
    match i
      case 0 => "You are a professional resume writer. Your task is to tailor the following resume for a specific job position."
      case 1 => ""
      case 2 => "## Critical Rules (DO NOT VIOLATE)"
      case 3 => ""
      case 4 => "1. ONLY include skills/technologies that are explicitly listed in the original resume below"
      case 5 => "2. NEVER add technologies from the job description that are not in the original resume"
      case 6 => "3. NEVER fabricate or exaggerate achievements - you may only enhance wording of existing bullets"
      case 7 => "4. If the candidate lacks a required skill, do NOT add it - focus on transferable skills they DO have"
      case 8 => "5. STAR method rewrites must be based on the original bullet points, not invented"
      case 9 => ""
      case 10 => "## Accuracy Rules (STRICTLY ENFORCED)"
      case 11 => ""
      case 12 => "6. NEVER change what a product/project does - if it says \"meeting room booking app\", do NOT call it a \"dashboard\" or something else"
      case 13 => "7. NEVER change who the users/customers are - if it says \"collaborators\", do NOT say \"hoteliers\" or any other group"
      case 14 => "8. NEVER invent context, domain, or industry details not explicitly stated in the original"
      case 15 => "9. PRESERVE the core meaning of each bullet - only improve clarity and structure, never replace facts"
      case 16 => "10. When unsure about a detail, use the EXACT wording from the original resume"
      case 17 => "11. ALWAYS preserve location details EXACTLY as shown - if it says \"Porto, Portugal (Remote)\", keep the working policy (Remote/Hybrid/On-site) in parentheses"
      case 18 => "12. NEVER change cities or countries in locations - do NOT replace \"Porto, Portugal\" with \"Hamburg, Germany\" even if you know the company headquarters is elsewhere. Use ONLY the location stated in the original resume."
      case 19 => ""
      case 20 => "## Instructions"
      case 21 => ""
      case 22 => "1. **ATS Optimization**: Use keywords from the job description ONLY if they match skills already in the resume"
      case 23 => "2. **STAR Method**: Rewrite each bullet point using the STAR method (Situation, Task, Action, Result). Keep bullets concise (1-2 lines each). Base rewrites on the original content."
      case 24 => "3. **Relevance**: Prioritize and reorder experiences/skills that are most relevant to the job"
      case 25 => "4. **Professional Summary**: Update the summary to highlight fit for this specific role using only the candidate's actual experience"
      case 26 => ""
      case 27 => "## Current Resume"
      case _ => ""
  }

  /** The rules as a list of lines, line `i` being `RulesLine(i)`. */
  function RulesLines(): (r: seq<string>)
    ensures |r| == 29
  {
    seq(29, RulesLine)
  }

  /** The fixed description of the expected JSON answer, from
      `## Output Format` to the closing brace. */
  function FormatLine(i: nat): string
    requires i < 27
  {
    match i
      case 0 => "## Output Format"
      case 1 => ""
      case 2 => "Respond with ONLY a JSON object (no markdown code blocks, no explanation) in this exact format:"
      case 3 => ""
      case 4 => "{"
      case 5 => "  \"summary\": \"Updated professional summary tailored to this role\","
      case 6 => "  \"skills\": [\"skill1\", \"skill2\", \"...\"],"
      case 7 => "  \"experience\": ["
      case 8 => "    {"
      case 9 => "      \"company\": \"Company Name\","
      case 10 => "      \"role\": \"Role Title\","
      case 11 => "      \"location\": \"City, Country (Remote/Hybrid/On-site)\","
      case 12 => "      \"period\": \"Start - End\","
      case 13 => "      \"bullets\": [\"STAR-formatted bullet 1\", \"STAR-formatted bullet 2\"]"
      case 14 => "    }"
      case 15 => "  ],"
      case 16 => "  \"education\": ["
      case 17 => "    {"
      case 18 => "      \"degree\": \"Degree\","
      case 19 => "      \"institution\": \"Institution\","
      case 20 => "      \"startDate\": \"September 2018\","
      case 21 => "      \"endDate\": \"September 2019\","
      case 22 => "      \"status\": \"Incomplete\""
      case 23 => "    }"
      case 24 => "  ],"
      case 25 => "  \"languages\": [\"Language (Proficiency)\"]"
      case _ => "}"
  }

  /** The answer format as a list of lines. */
  function FormatLines(): (r: seq<string>)
    ensures |r| == 27
  {
    seq(27, FormatLine)
  }

  // ---------------------------------------------------------------------------
  // Lists.

  /** `xs.map((x) => `- ${x}`)`. */
  function Dashed(xs: seq<string>): (r: seq<string>)
    ensures |r| == |xs|
  {
    if xs == [] then [] else ["- " + xs[0]] + Dashed(xs[1..])
  }

  lemma {:induction false} DashedAt(xs: seq<string>, k: nat)
    requires k < |xs|
    ensures Dashed(xs)[k] == "- " + xs[k]
  {
    if k > 0 {
      DashedAt(xs[1..], k - 1);
    }
  }

  /** `xs.map((x) => `- ${x}`).join("\n")`. */
  function ListText(xs: seq<string>): string {
    Join(Dashed(xs), "\n")
  }

  /** The lines of a list: one `- x` line per item, or one empty line when
      there are no items. */
  function ListLines(xs: seq<string>): seq<string> {
    if xs == [] then [""] else Dashed(xs)
  }

  lemma DashOneLine()
    ensures OneLine("- ") && OneLine(" | ") && OneLine(" - ") && OneLine(" (") && OneLine(")")
    ensures OneLine("**") && OneLine("** | ") && OneLine(" ") && OneLine("")
  {
  }

  lemma ListTextLines(xs: seq<string>)
    requires forall k :: 0 <= k < |xs| ==> OneLine(xs[k])
    ensures Lines(ListText(xs)) == ListLines(xs)
  {
    if xs != [] {
      forall k | 0 <= k < |xs| ensures '\n' !in Dashed(xs)[k] {
        DashedAt(xs, k);
        DashOneLine();
      }
      SplitJoin(Dashed(xs), '\n');
    }
  }

  /** A `- x` line reads back, under the parser's list rule, as `x` trimmed. */
  lemma DashedReadsBack(x: string)
    ensures BulletOf("- " + x) == Some(Trim(x))
  {
    var l := "- " + x;
    assert StartsWith(l, "-");
    assert l[1..] == " " + x;
    BulletTextDash(l);
    TrimLeadingSpace(x);
    TrimStartSpec(l);
    assert TrimStart(l) == l;
    TrimEndSpec(l);
    assert !IsBlank(l);
    assert Trim(l)[0] == '-';
  }

  /** The prompt's skills and languages lists, read by the parser's list
      rule, give back every item, trimmed and in order. */
  lemma ListReadsBack(xs: seq<string>)
    ensures Bullets(Dashed(xs)) == seq(|xs|, k requires 0 <= k < |xs| => Trim(xs[k]))
  {
    var ys := seq(|xs|, k requires 0 <= k < |xs| => Trim(xs[k]));
    var ds := Dashed(xs);
    forall k | 0 <= k < |xs|
      ensures BulletOf(ds[k]) == Some(ys[k])
    {
      DashedAt(xs, k);
      DashedReadsBack(xs[k]);
    }
    CollectTotal(ds, BulletOf, ys);
  }

  // ---------------------------------------------------------------------------
  // Profile.

  /** `${value ? `<label> ${value}` : ""}`: the labelled line for a truthy
      value, an empty line otherwise. */
  function ProfileLine(key: string, o: Option<string>): string {
    if Truthy(o) then key + " " + o.value else ""
  }

  /** The seven profile lines: the name always, then email, phone, location,
      GitHub, LinkedIn and summary, each possibly empty. */
  function ProfileLines(p: Profile): seq<string> {
    [
      NameKey + " " + p.name,
      ProfileLine(EmailKey, p.email),
      ProfileLine(PhoneKey, p.phone),
      ProfileLine(LocationKey, p.location),
      ProfileLine(GitHubKey, p.github),
      ProfileLine(LinkedInKey, p.linkedin),
      ProfileLine(SummaryKey, p.summary)
    ]
  }

  /** A line `<key> <value>`, read with the parser's label rule for `key`,
      gives back the value trimmed. */
  lemma LabelReadsBack(key: string, v: string)
    requires |key| > 0
    ensures LabelValue(key + " " + v, key) == Some(Trim(v))
  {
    var line := key + " " + v;
    assert OccursAt(line, key, 0);
    assert IndexOf(line, key) == Some(0);
    assert line[|key|..] == " " + v;
    LabelValueSpec(line, key);
    TrimLeadingSpace(v);
  }

  /** Each optional profile line reads back as its value, trimmed, exactly
      when the value is truthy; the empty line left for a falsy value reads
      as nothing. */
  lemma ProfileLineReadsBack(key: string, o: Option<string>)
    requires |key| > 0
    ensures LabelValue(ProfileLine(key, o), key) == if Truthy(o) then Some(Trim(o.value)) else None
  {
    if Truthy(o) {
      LabelReadsBack(key, o.value);
    }
  }

  /** The name line is always present and reads back as the name, trimmed. */
  lemma NameLineReadsBack(p: Profile)
    ensures LabelValue(ProfileLines(p)[0], NameKey) == Some(Trim(p.name))
  {
    LabelReadsBack(NameKey, p.name);
  }

  // ---------------------------------------------------------------------------
  // Experience and education.

  /** `**company** | role | location | period`. */
  function EntryHeader(e: Experience): string {
    "**" + e.company + "** | " + e.role + " | " + e.location + " | " + e.period
  }

  /** One experience entry: a line feed, the header, a line feed, the bullets. */
  function EntryText(e: Experience): string {
    "\n" + EntryHeader(e) + "\n" + ListText(e.bullets)
  }

  /** The lines of an entry: an empty line, the header, then the bullets. */
  function EntryLines(e: Experience): seq<string> {
    ["", EntryHeader(e)] + ListLines(e.bullets)
  }

  function ExperienceText(es: seq<Experience>): string {
    Join(seq(|es|, k requires 0 <= k < |es| => EntryText(es[k])), "\n")
  }

  function ExperienceLines(es: seq<Experience>): seq<string> {
    if es == [] then [""] else Flatten(seq(|es|, k requires 0 <= k < |es| => EntryLines(es[k])))
  }

  /** `- degree | institution | start - end`, then ` (status)` when the
      status is truthy. */
  function EducationLine(ed: DatedEducation): string {
    "- " + ed.degree + " | " + ed.institution + " | " + ed.startDate + " - " + ed.endDate
      + (if Truthy(ed.status) then " (" + ed.status.value + ")" else "")
  }

  function EducationText(eds: seq<DatedEducation>): string {
    Join(seq(|eds|, k requires 0 <= k < |eds| => EducationLine(eds[k])), "\n")
  }

  function EducationLines(eds: seq<DatedEducation>): seq<string> {
    if eds == [] then [""] else seq(|eds|, k requires 0 <= k < |eds| => EducationLine(eds[k]))
  }

  lemma BoldRegroup(x: string, b: string, c: string, d: string)
    ensures "**" + x + "** | " + b + " | " + c + " | " + d == ("**" + x + "**") + " | " + b + " | " + c + " | " + d
    ensures '|' !in x ==> '|' !in "**" + x + "**"
    ensures ("**" + x + "**") + " " == "**" + x + "** "
  {
    assert "**" + x + "** | " == ("**" + x + "**") + " | ";
  }

  /** An experience header always has four bar-separated fields, an empty
      location included; each field comes back by trimming. */
  lemma EntryHeaderFields(e: Experience)
    requires '|' !in e.company && '|' !in e.role && '|' !in e.location && '|' !in e.period
    ensures Split(EntryHeader(e), '|')
      == ["**" + e.company + "** ", " " + e.role + " ", " " + e.location + " ", " " + e.period]
  {
    var c := "**" + e.company + "**";
    BoldRegroup(e.company, e.role, e.location, e.period);
    SplitFourBarred(c, e.role, e.location, e.period);
  }

  lemma DatesRegroup(a: string, i: string, s: string, e: string, x: string)
    ensures a + " | " + i + " | " + s + " - " + e + x == a + " | " + i + " | " + (s + " - " + e + x)
    ensures " " + (s + " - " + e + x) == " " + s + " - " + e + x
    ensures '|' !in s && '|' !in e && '|' !in x ==> '|' !in s + " - " + e + x
    ensures '|' !in a ==> '|' !in "- " + a
  {
  }

  lemma StatusNoBar(o: Option<string>)
    requires o.Some? ==> '|' !in o.value
    ensures '|' !in (if Truthy(o) then " (" + o.value + ")" else "")
  {
  }

  /** An education line has three bar-separated fields; the last holds the
      dates and, for a truthy status only, the status in parentheses. */
  lemma EducationLineFields(ed: DatedEducation)
    requires '|' !in ed.degree && '|' !in ed.institution && '|' !in ed.startDate && '|' !in ed.endDate
    requires ed.status.Some? ==> '|' !in ed.status.value
    ensures Split(EducationLine(ed), '|') == ["- " + ed.degree + " ", " " + ed.institution + " ",
      " " + ed.startDate + " - " + ed.endDate + (if Truthy(ed.status) then " (" + ed.status.value + ")" else "")]
  {
    var suffix := if Truthy(ed.status) then " (" + ed.status.value + ")" else "";
    StatusNoBar(ed.status);
    DatesRegroup(ed.degree, ed.institution, ed.startDate, ed.endDate, suffix);
    DatesRegroup("- " + ed.degree, ed.institution, ed.startDate, ed.endDate, suffix);
    SplitThreeBarred("- " + ed.degree, ed.institution, ed.startDate + " - " + ed.endDate + suffix);
  }

  // ---------------------------------------------------------------------------
  // The whole prompt.

  /** The lists and sections after the profile, as chunks. */
  function SectionChunks(r: Resume<DatedEducation>): seq<string> {
    ["", "### Skills", ListText(r.skills)]
      + (["", "### Professional Experience", ExperienceText(r.experience)]
      + (["", "### Education", EducationText(r.education)]
      + ["", "### Languages", ListText(r.languages)]))
  }
  /** The resume as markdown chunks, from the name line to the languages list. */
  function ResumeChunks(r: Resume<DatedEducation>): seq<string> {
    ProfileLines(r.profile) + SectionChunks(r)
  }

  const JobLines: seq<string> := ["", "## Job Description", ""]

  /** The prompt around given fixed rules and answer format. */
  function PromptWith(rules: seq<string>, r: Resume<DatedEducation>, jobDescription: string, format: seq<string>): string {
    Join(rules + (ResumeChunks(r) + (JobLines + ([jobDescription] + ([""] + format)))), "\n")
  }

  /** The prompt `buildPrompt` returns. */
  function BuildPrompt(r: Resume<DatedEducation>, jobDescription: string): string {
    PromptWith(RulesLines(), r, jobDescription, FormatLines())
  }

  // ---------------------------------------------------------------------------
  // The prompt for the parser's own output.

  /** A parsed education entry as the education line reads it: the entry has
      no `startDate`, `endDate` or `status`, so both dates interpolate as the
      text `undefined` and the status is falsy. */
  function AsRead(ed: Education): DatedEducation {
    DatedEducation(ed.degree, ed.institution, "undefined", "undefined", None)
  }

  /** The parsed resume as `buildPrompt` reads it. */
  function ParsedAsRead(r: Resume<Education>): Resume<DatedEducation> {
    Resume(r.profile, r.skills, r.experience,
      seq(|r.education|, k requires 0 <= k < |r.education| => AsRead(r.education[k])),
      r.languages)
  }

  /** `buildPrompt` applied to what `parseResume` returns, as the command line
      does. */
  function ParsedPrompt(r: Resume<Education>, jobDescription: string): string {
    BuildPrompt(ParsedAsRead(r), jobDescription)
  }

  /** A parsed education entry gives `- degree | institution | undefined -
      undefined`: its year is not in the line. */
  lemma ParsedEducationLine(ed: Education)
    ensures EducationLine(AsRead(ed)) == "- " + ed.degree + " | " + ed.institution + " | undefined - undefined"
  {
    UndefinedDates("- " + ed.degree + " | " + ed.institution + " | ");
  }

  lemma UndefinedDates(h: string)
    ensures h + "undefined" + " - " + "undefined" + "" == h + "undefined - undefined"
  {
  }

  /** Resumes that differ only in the years of their education entries give
      the same prompt: the years never reach it. */
  lemma ParsedPromptIgnoresYears(r1: Resume<Education>, r2: Resume<Education>, jobDescription: string)
    requires r1.profile == r2.profile && r1.skills == r2.skills && r1.experience == r2.experience
    requires r1.languages == r2.languages && |r1.education| == |r2.education|
    requires forall k :: 0 <= k < |r1.education| ==>
      r1.education[k].degree == r2.education[k].degree
      && r1.education[k].institution == r2.education[k].institution
    ensures ParsedPrompt(r1, jobDescription) == ParsedPrompt(r2, jobDescription)
  {
    var e1 := seq(|r1.education|, k requires 0 <= k < |r1.education| => AsRead(r1.education[k]));
    var e2 := seq(|r2.education|, k requires 0 <= k < |r2.education| => AsRead(r2.education[k]));
    forall k | 0 <= k < |e1| ensures e1[k] == e2[k] {
      assert e1[k] == AsRead(r1.education[k]) && e2[k] == AsRead(r2.education[k]);
    }
    assert e1 == e2;
    assert ParsedAsRead(r1) == ParsedAsRead(r2);
  }

  lemma JobLinesJoin()
    ensures Join(JobLines, "\n") == "\n## Job Description\n"
  {
  }

  lemma ListRegroup(a: seq<string>, b: seq<string>, c: seq<string>, d: seq<string>)
    ensures a + (b + (c + d)) == ((a + b) + c) + d
  {
  }

  lemma SlotStrings(h: string, j: string, f: string)
    ensures (h + "\n" + "\n## Job Description\n") + "\n" + (j + "\n" + ("" + "\n" + f))
      == h + "\n\n## Job Description\n\n" + j + "\n\n" + f
  {
  }

  lemma SlotWith(rules: seq<string>, r: Resume<DatedEducation>, jobDescription: string, format: seq<string>)
    requires |format| >= 1
    ensures PromptWith(rules, r, jobDescription, format)
      == Join(rules + ResumeChunks(r), "\n") + "\n\n## Job Description\n\n"
         + jobDescription + "\n\n" + Join(format, "\n")
  {
    var head := rules + ResumeChunks(r);
    var tail := [""] + format;
    ListRegroup(rules, ResumeChunks(r), JobLines, [jobDescription] + tail);
    JoinAppend(head + JobLines, [jobDescription] + tail, "\n");
    JoinAppend(head, JobLines, "\n");
    JobLinesJoin();
    JoinAppend([jobDescription], tail, "\n");
    JoinAppend([""], format, "\n");
    SlotStrings(Join(head, "\n"), jobDescription, Join(format, "\n"));
  }

  /** The job description sits verbatim between the resume, followed by
      `## Job Description` and an empty line, and the fixed answer format,
      preceded by an empty line. */
  lemma JobDescriptionSlot(r: Resume<DatedEducation>, jobDescription: string)
    ensures BuildPrompt(r, jobDescription)
      == Join(RulesLines() + ResumeChunks(r), "\n") + "\n\n## Job Description\n\n"
         + jobDescription + "\n\n" + Join(FormatLines(), "\n")
  {
    SlotWith(RulesLines(), r, jobDescription, FormatLines());
  }

  lemma RecoveredWith(head: string, j1: string, j2: string, t1: string, t2: string)
    requires head + j1 + t1 + t2 == head + j2 + t1 + t2
    ensures j1 == j2
  {
    assert |j1| == |j2|;
    assert j1 == (head + j1 + t1 + t2)[|head|..|head| + |j1|];
    assert j2 == (head + j2 + t1 + t2)[|head|..|head| + |j2|];
  }

  /** The job description can be read back from the prompt: it is the text
      between the fixed head and the fixed tail, so different descriptions
      give different prompts. */
  lemma JobDescriptionRecovered(r: Resume<DatedEducation>, j1: string, j2: string)
    requires BuildPrompt(r, j1) == BuildPrompt(r, j2)
    ensures j1 == j2
  {
    JobDescriptionSlot(r, j1);
    JobDescriptionSlot(r, j2);
    RecoveredWith(Join(RulesLines() + ResumeChunks(r), "\n") + "\n\n## Job Description\n\n",
      j1, j2, "\n\n", Join(FormatLines(), "\n"));
  }

  lemma FrameWith(rules: seq<string>, r: Resume<DatedEducation>, jobDescription: string, format: seq<string>)
    requires |rules| >= 1 && |format| >= 1
    ensures StartsWith(PromptWith(rules, r, jobDescription, format), Join(rules, "\n") + "\n")
    ensures var tail := "\n" + Join(format, "\n");
      var prompt := PromptWith(rules, r, jobDescription, format);
      |tail| <= |prompt| && prompt[|prompt| - |tail|..] == tail
  {
    FramePrefix(rules, r, jobDescription, format);
    FrameSuffix(rules, r, jobDescription, format);
  }

  lemma FramePrefix(rules: seq<string>, r: Resume<DatedEducation>, jobDescription: string, format: seq<string>)
    requires |rules| >= 1
    ensures StartsWith(PromptWith(rules, r, jobDescription, format), Join(rules, "\n") + "\n")
  {
    var rest := ResumeChunks(r) + (JobLines + ([jobDescription] + ([""] + format)));
    JoinAppend(rules, rest, "\n");
    PrefixOfAppend(Join(rules, "\n") + "\n", Join(rest, "\n"));
  }

  lemma FrameSuffix(rules: seq<string>, r: Resume<DatedEducation>, jobDescription: string, format: seq<string>)
    requires |format| >= 1
    ensures var tail := "\n" + Join(format, "\n");
      var prompt := PromptWith(rules, r, jobDescription, format);
      |tail| <= |prompt| && prompt[|prompt| - |tail|..] == tail
  {
    SlotWith(rules, r, jobDescription, format);
    var p := Join(rules + ResumeChunks(r), "\n") + "\n\n## Job Description\n\n" + jobDescription;
    var f := Join(format, "\n");
    BlankLineBetween(p, f);
    SuffixOfAppend(p + "\n", "\n" + f);
  }

  lemma PrefixOfAppend(p: string, q: string)
    ensures StartsWith(p + q, p)
  {
    assert (p + q)[..|p|] == p;
  }

  lemma SuffixOfAppend(p: string, q: string)
    ensures |q| <= |p + q| && (p + q)[|p + q| - |q|..] == q
  {
    assert (p + q)[|p|..] == q;
  }

  lemma BlankLineBetween(p: string, f: string)
    ensures p + "\n\n" + f == (p + "\n") + ("\n" + f)
  {
  }

  /** The prompt opens with the fixed rules and closes with the fixed answer
      format. */
  lemma PromptFrame(r: Resume<DatedEducation>, jobDescription: string)
    ensures StartsWith(BuildPrompt(r, jobDescription), Join(RulesLines(), "\n") + "\n")
    ensures var tail := "\n" + Join(FormatLines(), "\n");
      var prompt := BuildPrompt(r, jobDescription);
      |tail| <= |prompt| && prompt[|prompt| - |tail|..] == tail
  {
    FrameWith(RulesLines(), r, jobDescription, FormatLines());
  }

  // ---------------------------------------------------------------------------
  // The prompt, line by line.

  /** No resume value contains a line feed. */
  predicate ResumeOneLine(r: Resume<DatedEducation>) {
    var p := r.profile;
    OneLine(p.name)
    && (p.email.Some? ==> OneLine(p.email.value))
    && (p.phone.Some? ==> OneLine(p.phone.value))
    && (p.location.Some? ==> OneLine(p.location.value))
    && (p.github.Some? ==> OneLine(p.github.value))
    && (p.linkedin.Some? ==> OneLine(p.linkedin.value))
    && (p.summary.Some? ==> OneLine(p.summary.value))
    && (forall k :: 0 <= k < |r.skills| ==> OneLine(r.skills[k]))
    && (forall k :: 0 <= k < |r.languages| ==> OneLine(r.languages[k]))
    && (forall k :: 0 <= k < |r.experience| ==> EntryOneLine(r.experience[k]))
    && (forall k :: 0 <= k < |r.education| ==> EducationOneLine(r.education[k]))
  }

  lemma KeysOneLine()
    ensures OneLine(NameKey) && OneLine(EmailKey) && OneLine(PhoneKey) && OneLine(LocationKey)
    ensures OneLine(GitHubKey) && OneLine(LinkedInKey) && OneLine(SummaryKey)
  {
  }

  lemma JobHeadingOneLine()
    ensures OneLine("## Job Description") && OneLine("")
  {
  }

  lemma ProfileLineOneLine(key: string, o: Option<string>)
    requires OneLine(key) && (o.Some? ==> OneLine(o.value))
    ensures OneLine(ProfileLine(key, o))
  {
    DashOneLine();
  }

  lemma ProfileOneLine(r: Resume<DatedEducation>)
    requires ResumeOneLine(r)
    ensures forall k :: 0 <= k < |ProfileLines(r.profile)| ==> OneLine(ProfileLines(r.profile)[k])
  {
    var p := r.profile;
    KeysOneLine();
    DashOneLine();
    ProfileLineOneLine(EmailKey, p.email);
    ProfileLineOneLine(PhoneKey, p.phone);
    ProfileLineOneLine(LocationKey, p.location);
    ProfileLineOneLine(GitHubKey, p.github);
    ProfileLineOneLine(LinkedInKey, p.linkedin);
    ProfileLineOneLine(SummaryKey, p.summary);
  }

  lemma EntryTextLines(e: Experience)
    requires EntryOneLine(e)
    ensures Lines(EntryText(e)) == EntryLines(e)
  {
    var h := EntryHeader(e);
    assert OneLine(h) by {
      DashOneLine();
    }
    assert EntryText(e) == "" + ['\n'] + (h + ['\n'] + ListText(e.bullets));
    SplitAppend("", '\n', h + ['\n'] + ListText(e.bullets));
    SplitAppend(h, '\n', ListText(e.bullets));
    LinesOfOneLine(h);
    ListTextLines(e.bullets);
  }

  lemma ExperienceTextLines(es: seq<Experience>)
    requires forall k :: 0 <= k < |es| ==> EntryOneLine(es[k])
    ensures Lines(ExperienceText(es)) == ExperienceLines(es)
  {
    if es != [] {
      var bs := seq(|es|, k requires 0 <= k < |es| => EntryText(es[k]));
      var ls := seq(|es|, k requires 0 <= k < |es| => EntryLines(es[k]));
      forall k | 0 <= k < |es| ensures Lines(bs[k]) == ls[k] {
        EntryTextLines(es[k]);
      }
      LinesOfJoin(bs);
      LinesOfAllFlatten(bs, ls);
    }
  }

  lemma EducationTextLines(eds: seq<DatedEducation>)
    requires forall k :: 0 <= k < |eds| ==> EducationOneLine(eds[k])
    ensures Lines(EducationText(eds)) == EducationLines(eds)
  {
    if eds != [] {
      var ls := seq(|eds|, k requires 0 <= k < |eds| => EducationLine(eds[k]));
      forall k | 0 <= k < |eds| ensures '\n' !in ls[k] {
        DashOneLine();
      }
      SplitJoin(ls, '\n');
    }
  }

  /** The resume part of the prompt as lines. */
  function ResumeLines(r: Resume<DatedEducation>): seq<string> {
    ProfileLines(r.profile) + (["", "### Skills"] + (ListLines(r.skills)
      + (["", "### Professional Experience"] + (ExperienceLines(r.experience)
      + (["", "### Education"] + (EducationLines(r.education)
      + (["", "### Languages"] + ListLines(r.languages))))))))
  }


  lemma ProfileChunksLines(r: Resume<DatedEducation>)
    requires ResumeOneLine(r)
    ensures LinesOfAll(ResumeChunks(r)) == ProfileLines(r.profile) + LinesOfAll(SectionChunks(r))
  {
    assert ResumeChunks(r) == ProfileLines(r.profile) + SectionChunks(r);
    ProfileOneLine(r);
    LinesOfAllAppend(ProfileLines(r.profile), SectionChunks(r));
    LinesOfAllOneLine(ProfileLines(r.profile));
  }

  lemma SectionHeadingsOneLine()
    ensures OneLine("### Skills") && OneLine("### Professional Experience")
    ensures OneLine("### Education") && OneLine("### Languages")
  {
  }

  lemma SectionChunksLines(r: Resume<DatedEducation>)
    requires ResumeOneLine(r)
    ensures LinesOfAll(SectionChunks(r)) == ["", "### Skills"] + (ListLines(r.skills)
      + (["", "### Professional Experience"] + (ExperienceLines(r.experience)
      + (["", "### Education"] + (EducationLines(r.education)
      + (["", "### Languages"] + ListLines(r.languages)))))))
  {
    var c4 := ["", "### Languages", ListText(r.languages)];
    var c3 := ["", "### Education", EducationText(r.education)] + c4;
    var c2 := ["", "### Professional Experience", ExperienceText(r.experience)] + c3;
    SectionHeadingsOneLine();
    HeadedLines("### Skills", ListText(r.skills), c2);
    ListTextLines(r.skills);
    HeadedLines("### Professional Experience", ExperienceText(r.experience), c3);
    ExperienceTextLines(r.experience);
    HeadedLines("### Education", EducationText(r.education), c4);
    EducationTextLines(r.education);
    HeadedLast("### Languages", ListText(r.languages));
    ListTextLines(r.languages);
  }

  lemma ResumeChunksLines(r: Resume<DatedEducation>)
    requires ResumeOneLine(r)
    ensures LinesOfAll(ResumeChunks(r)) == ResumeLines(r)
  {
    ProfileChunksLines(r);
    SectionChunksLines(r);
  }

  lemma JobLinesOneLine()
    ensures LinesOfAll(JobLines) == JobLines
  {
    JobHeadingOneLine();
    LinesOfAllOneLine(JobLines);
  }

  lemma LinesWith(rules: seq<string>, r: Resume<DatedEducation>, jobDescription: string, format: seq<string>)
    requires ResumeOneLine(r) && |rules| >= 1 && |format| >= 1
    ensures Lines(PromptWith(rules, r, jobDescription, format))
      == LinesOfAll(rules) + (ResumeLines(r) + (JobLines
         + (Lines(jobDescription) + ([""] + LinesOfAll(format)))))
  {
    var t4 := [""] + format;
    var t3 := [jobDescription] + t4;
    var t2 := JobLines + t3;
    var t1 := ResumeChunks(r) + t2;
    LinesOfJoin(rules + t1);
    LinesOfAllAppend(rules, t1);
    LinesOfAllAppend(ResumeChunks(r), t2);
    ResumeChunksLines(r);
    LinesOfAllAppend(JobLines, t3);
    JobLinesOneLine();
    LinesOfAllCons(jobDescription, t4);
    EmptyLines();
    LinesOfAllCons("", format);
  }

  /** When no resume value contains a line feed, the prompt is, line by line:
      the rules; the name line and six profile lines, each either labelled or
      empty; each list under its heading, one `- item` line per element (one
      empty line for an empty list); each experience entry as an empty line,
      its bold header line and its bullet lines; one line per education entry;
      then the job description's own lines between `## Job Description` and
      the answer format. */
  lemma PromptLines(r: Resume<DatedEducation>, jobDescription: string)
    requires ResumeOneLine(r)
    ensures Lines(BuildPrompt(r, jobDescription))
      == LinesOfAll(RulesLines()) + (ResumeLines(r) + (JobLines
         + (Lines(jobDescription) + ([""] + LinesOfAll(FormatLines())))))
  {
    LinesWith(RulesLines(), r, jobDescription, FormatLines());
  }
}
