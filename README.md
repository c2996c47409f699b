# resume-tailor in Dafny

resume-tailor is a command-line tool that tailors a Markdown resume to a job
description. It does four things with text:

- It writes a Markdown resume skeleton for text extracted from a PDF
  (`generateResumeTemplate`).
- It parses the Markdown resume into a `Resume` record (`parseResumeContent`).
  The parser reads the `# PROFILE`, `# MAIN TECHS AND SKILLS`,
  `# PROFESSIONAL EXPERIENCE`, `# EDUCATION` and `# LANGUAGES` sections.
- It builds the prompt sent to a language model (`buildPrompt`).
- It renders the tailored resume that comes back as Typst markup
  (`generateTypst`). All free text except the GitHub and LinkedIn link
  URLs goes through `escapeTypst` on the way; those URLs hold the raw values.

This project models those four pieces and proves what they promise. The
modules are:

- `Text`, `Seqs` and `Layout`: the string operations the source uses:
  - `trim`, `split`, `join`;
  - `filter`/`map` pipelines;
  - the line structure of text joined with `"\n"` and `"\n\n"`.
- `LazyRegex`: an exact backtracking model of two regex families:
  - the header regexes `(.+?)\s*\|\s*(.+?)\s*\|\s*(.+)` and their
    four-group form;
  - the profile label regexes `\*\*Key\*\*:\s*(.+)`.
- `ResumeModel`: the records.
- `Sections`: `splitSections`.
- `ParseResume`: the profile, bullet-list, experience and education parsers.
- `TypstEscape`: `escapeTypst` and its inverse.
- `TypstTemplate`: `generateTypst`.
- `PromptBuilder`: `buildPrompt`.
- `ResumeTemplate`: `generateResumeTemplate`, and what the parser makes of
  its output.

The parts of the source that change state step by step are methods, each
proved equal to a declarative function:

- the section-splitting loop;
- the profile loop that overwrites fields;
- the experience and education loops that push entries;
- the contact list built with `push`.

Each declarative function in turn carries the lemmas.

Three behaviours of the source are worth knowing:

- **A repeated section title keeps its last occurrence.** The parser
  assigns `sections[name]` in document order, so a later `# TITLE`
  overwrites an earlier one. `Sections.SectionsOf` is defined that way.
- **The parser keeps the template's `---` rule.** The rule sits inside the
  `# LANGUAGES` section of the generated template. The parser therefore reads
  a language `"--"` from it, and an empty language `""` from the lone `-`
  placeholder. The skills placeholder gives an empty skill `""` the same way.
  `ResumeTemplate.TemplateRoundTrip` states the exact resume that comes back.
- **Education entries have two shapes.** The parser fills an education entry
  with `degree`, `institution` and `year`. The prompt builder and the
  renderer instead read `startDate`, `endDate` and an optional `status`.
  `Resume` is therefore generic in its education entry: the parser's
  `Resume<Education>` against the prompt's `Resume<DatedEducation>`.
  The `prepare` command (src/index.ts:23-25) nevertheless passes the parser's
  output to `buildPrompt`. At run time a parsed entry has neither date, so
  its education line reads `- degree | institution | undefined - undefined`
  and the year is lost. `PromptBuilder.ParsedPrompt` models that path, and
  `PromptBuilder.ParsedPromptIgnoresYears` states that the years never reach
  the prompt.

## Model

| member | source | states |
|---|---|---|
| `Text.Trim` | src/parse-resume.ts:59 | the result has no white space at either end, and it is empty exactly when the input is all white space |
| `Text.TrimInfix` | src/parse-resume.ts:59 | the trimmed text is the input with a blank prefix and a blank suffix removed, and nothing else: it sits in the input at the end of a blank run, and only blank text follows it |
| `Text.SplitJoin` | src/parse-resume.ts:66 | splitting at a separator undoes joining parts that do not contain it |
| `Text.JoinSplit` | src/parse-resume.ts:102 | joining the pieces of a split with the separator gives back the input |
| `Seqs.CollectSources` | src/parse-resume.ts:91-94 | a filter-then-map keeps exactly one value for each kept element, in order, and each value comes from its own element |
| `LazyRegex.HeaderMatch` | src/parse-resume.ts:104-107 | a header with at least n bars and non-blank fields matches the n-bar regex; trimmed, the groups are the first n bar-separated fields and the rest joined back with its bars |
| `LazyRegex.Search` | src/parse-resume.ts:104-107 | `header.match` of the three- and four-group header regexes: the first start position where the anchored backtracking match succeeds, with one group per field; what the groups hold is stated by `LazyRegex.HeaderMatch`, `LazyRegex.FieldsMatch`, `LazyRegex.HeaderTooFewBars` and `LazyRegex.SearchNeedsBars` |
| `LazyRegex.HeaderTooFewBars` | src/parse-resume.ts:104-107 | a header with fewer than n bars does not match the n-bar regex |
| `LazyRegex.SearchNeedsBars` | src/parse-resume.ts:104-107 | a match anywhere in the header needs at least n bars |
| `LazyRegex.FieldsMatch` | src/parse-resume.ts:105 | the lazy groups stop at the first bars: group k is field k trimmed, and the last group is the trimmed-start rest |
| `LazyRegex.LabelValue` | src/parse-resume.ts:70-84 | `line.match(/\*\*Key\*\*:\s*(.+)/)` and the `trim` of its group; `LazyRegex.LabelValueSpec` states when it matches and what it captures |
| `LazyRegex.LabelValueSpec` | src/parse-resume.ts:70-76 | a label matches exactly when its first occurrence is followed by at least one character; the value is that remainder, trimmed |
| `Sections.NextHeading` | src/parse-resume.ts:58 | a section ends at the next `# ` line or at the end of the document, and no heading lies between |
| `Sections.LastTitled` | src/parse-resume.ts:55-59 | the heading found for a title is the last line with that title; when none is found, no line has that title |
| `Sections.SplitSections` | src/parse-resume.ts:50-63 | the loop over heading matches builds exactly `SectionsOf`: one entry per title, holding the trimmed text under the last heading with that title |
| `Sections.SectionAt` | src/parse-resume.ts:55-59 | a heading whose title does not recur maps to the trimmed lines strictly between it and the next heading |
| `Sections.RepeatedTitle` | src/parse-resume.ts:59 | when a title repeats, the section kept comes from a heading at or after the later repetition |
| `Sections.NoHeadingsNoSections` | src/parse-resume.ts:52-53 | a document without `# ` lines has no sections |
| `Sections.EmptyDocumentSections` | src/parse-resume.ts:50-63 | the empty document has no sections |
| `Sections.SubHeadingIsContent` | src/parse-resume.ts:52 | a `## ` line does not end a section |
| `ParseResume.BulletList` | src/parse-resume.ts:90-95 | `parseSkills`, and `parseLanguages` (src/parse-resume.ts:156-161), which has the same body: the dash lines of the section, each without its dash and trimmed; `ParseResume.BulletsByLine`, `ParseResume.BulletTextDash` and `ParseResume.BulletTextExamples` state this |
| `ParseResume.KeepNonBlank` | src/parse-resume.ts:66 | a line is kept exactly when it is not blank, and it is kept unchanged |
| `ParseResume.BulletsByLine` | src/parse-resume.ts:90-95 | there is exactly one bullet per line whose trimmed form starts with `-`, in document order, each the value of its own line |
| `ParseResume.BulletTextDash` | src/parse-resume.ts:94 | a line starting with `-` gives the rest after the dash, trimmed |
| `ParseResume.BulletTextExamples` | src/parse-resume.ts:94 | an indented `- x` keeps its dash; `-` gives `""`; `---` gives `--` |
| `ParseResume.ProfileOf` | src/parse-resume.ts:65-88 | the profile of a section: each field from the last non-blank line where its label matches, the name `""` by default; `ParseResume.LastLabelAt`, `ParseResume.LastLabelNone` and `ParseResume.ParseProfile` state this |
| `ParseResume.LastLabelAt` | src/parse-resume.ts:69-84 | a field takes the value from the last line on which its label matches |
| `ParseResume.LastLabelNone` | src/parse-resume.ts:69-84 | a field stays absent exactly when its label matches on no line |
| `ParseResume.ParseProfile` | src/parse-resume.ts:65-88 | the loop that overwrites fields line by line returns `ProfileOf`: each field from its last matching line, with the name defaulting to `""` |
| `ParseResume.SplitSubHeadings` | src/parse-resume.ts:99 | the pieces of a split at `## ` line starts, rejoined with `## `, give back the section |
| `ParseResume.FragmentsJoin` | src/parse-resume.ts:99 | cutting the lines at `## ` line starts loses nothing: the pieces rejoin to the original lines |
| `ParseResume.FragmentsNoMarker` | src/parse-resume.ts:99 | no piece has a `## ` line after its first line, and the first piece has none at all |
| `ParseResume.PieceLines` | src/parse-resume.ts:102 | the lines of each piece are its fragment of the section's lines |
| `ParseResume.ParseExperience` | src/parse-resume.ts:97-134 | the loop pushes one experience per non-blank entry whose header matches, in order; the result is the declarative collection, and it is no longer than the entries |
| `ParseResume.ExperienceOf` | src/parse-resume.ts:102-130 | the experience one entry contributes: four-field header first, then three fields with an empty location, otherwise none; `ParseResume.ExperienceFourFields`, `ParseResume.ExperienceThreeFields` and `ParseResume.ExperienceTooFewBars` state the cases |
| `ParseResume.ExperienceFourFields` | src/parse-resume.ts:104-121 | a header with four or more non-blank fields gives company, role and location, then the period with any further bars kept; the bullets come from the body lines |
| `ParseResume.ExperienceThreeFields` | src/parse-resume.ts:107-129 | a header with exactly three non-blank fields gives an empty location |
| `ParseResume.ExperienceTooFewBars` | src/parse-resume.ts:104-130 | a header with fewer than two bars contributes no experience |
| `ParseResume.ParseEducation` | src/parse-resume.ts:136-154 | the loop pushes one education per non-blank entry whose header matches, in order; the result is the declarative collection |
| `ParseResume.EducationOf` | src/parse-resume.ts:141-150 | the education one entry contributes from its three-field header, otherwise none; `ParseResume.EducationFields`, `ParseResume.EducationTooFewBars` and `ParseResume.EducationYearKeepsBars` state the cases |
| `ParseResume.EducationFields` | src/parse-resume.ts:141-150 | a header with three or more non-blank fields gives degree and institution, then a year holding the rest with its bars |
| `ParseResume.EducationTooFewBars` | src/parse-resume.ts:142-150 | a header with fewer than two bars contributes no education |
| `ParseResume.EducationYearKeepsBars` | src/parse-resume.ts:142-149 | for `a \| b \| c \| d` the year is `c \| d` |
| `ParseResume.ParseResumeContent` | src/parse-resume.ts:38-48 | the result is `ResumeOf`: the five named sections, each parsed by its own parser, with a missing section read as `""` |
| `ParseResume.EmptySection` | src/parse-resume.ts:42-46 | an empty section gives the empty profile, no bullets and no entries |
| `ParseResume.NoHeadingsEmptyResume` | src/parse-resume.ts:38-48 | a document without `# ` lines parses to the empty resume |
| `ParseResume.EmptyDocument` | src/parse-resume.ts:38-48 | the empty document parses to the empty resume |
| `TypstEscape.Escape` | src/typst-template.ts:23-31 | escaping adds exactly one character per special character, and text without special characters is unchanged |
| `TypstEscape.EscapeChainIsEscape` | src/typst-template.ts:23-31 | the six replace-alls in their order, backslash first, escape each special character once |
| `TypstEscape.EscapeAppend` | src/typst-template.ts:23-31 | escaping works piece by piece |
| `TypstEscape.UnescapeEscape` | src/typst-template.ts:23-31 | unescaping recovers the original text |
| `TypstEscape.EscapeWellEscaped` | src/typst-template.ts:23-31 | escaped text has every special character behind a backslash |
| `TypstEscape.EscapeUnescape` | src/typst-template.ts:23-31 | every well-escaped text is the escape of its unescape, so the escape is a bijection onto well-escaped text |
| `TypstEscape.WellEscapedNoBareMarkup` | src/typst-template.ts:23-31 | in escaped text, every `#`, `$`, `@`, `<` and `>` follows a backslash |
| `TypstEscape.CountSpecialAppend` | src/typst-template.ts:23-31 | the growth of the escaped text adds up over pieces |
| `TypstTemplate.EscapeJoin` | src/typst-template.ts:51 | escaping each item and joining with a plain separator equals escaping the joined text |
| `TypstTemplate.EscapedJoinRecovers` | src/typst-template.ts:51 | the joined escaped items unescape to the joined items and are well escaped |
| `TypstTemplate.EscapeOneLine` | src/typst-template.ts:23-31 | escaping adds no line break |
| `TypstTemplate.ContactPieces` | src/typst-template.ts:40-47 | the contact parts are email, phone, GitHub link, LinkedIn link and location, each present only when its field is truthy, in that order |
| `TypstTemplate.ContactParts` | src/typst-template.ts:40-47 | the `push` sequence builds exactly `ContactPartsOf` |
| `TypstTemplate.ContactLinks` | src/typst-template.ts:43-46 | a truthy GitHub or LinkedIn value appears as a link, and every part comes from a truthy field |
| `TypstTemplate.ContactPlain` | src/typst-template.ts:40-49 | without links, the contact line is well escaped and unescapes to the present fields joined with ` \| ` |
| `TypstTemplate.SkillsLineRecovers` | src/typst-template.ts:51 | the skills line is the escape of the skills joined with `, ` and unescapes back to it |
| `TypstTemplate.LanguagesLineRecovers` | src/typst-template.ts:70 | the languages line is `■ ` followed by well-escaped text that unescapes to the languages joined with four spaces |
| `TypstTemplate.BulletLineRecovers` | src/typst-template.ts:56 | a bullet line is `  - ` followed by the escaped bullet, which unescapes to the bullet |
| `TypstTemplate.EntryBlockLines` | src/typst-template.ts:58-59 | with one-line fields, an experience block is the `#resume-entry` line followed by one line per bullet |
| `TypstTemplate.EducationStatus` | src/typst-template.ts:66 | the second education line ends in `)_` exactly when the status is truthy, and then it holds the escaped status |
| `TypstTemplate.EducationBlockLines` | src/typst-template.ts:63-66 | with one-line fields, an education block is exactly two lines |
| `TypstTemplate.ExperienceTextLines` | src/typst-template.ts:53-61 | the experience text is the entries' line blocks, separated by one empty line each |
| `TypstTemplate.EducationTextLines` | src/typst-template.ts:63-68 | the education text is the entries' line blocks, separated by one empty line each |
| `TypstTemplate.TypstOf` | src/typst-template.ts:33-115 | the document `generateTypst` returns; `TypstTemplate.GenerateTypst` is proved equal to it, and `TypstTemplate.TypstPreamble` and `TypstTemplate.TypstLines` state its layout |
| `TypstTemplate.GenerateTypst` | src/typst-template.ts:33-115 | the method that builds the document returns `TypstOf` |
| `TypstTemplate.TypstPreamble` | src/typst-template.ts:72-91 | every document starts with the fixed page-setup preamble |
| `TypstTemplate.TypstLines` | src/typst-template.ts:72-114 | with one-line values, the document's lines are the preamble, the header with name, contact and summary, the sections in order (skills, experience blocks, education blocks, languages) and the closing lines |
| `PromptBuilder.ListTextLines` | src/prompt-builder.ts:42 | a list of one-line items is one `- ` line per item |
| `PromptBuilder.DashedReadsBack` | src/prompt-builder.ts:42 | the bullet parser reads an item written as `- x` back as `x` trimmed |
| `PromptBuilder.ListReadsBack` | src/prompt-builder.ts:42 | the bullet parser reads the dashed list back as the items, each trimmed |
| `PromptBuilder.LabelReadsBack` | src/prompt-builder.ts:33-39 | a `**Key**: v` line reads back, through the profile regex, as `v` trimmed |
| `PromptBuilder.ProfileLineReadsBack` | src/prompt-builder.ts:34-39 | an optional profile line reads back as the value when the field is truthy, and as nothing when the line is empty |
| `PromptBuilder.NameLineReadsBack` | src/prompt-builder.ts:33 | the name line reads back as the trimmed name |
| `PromptBuilder.EntryHeaderFields` | src/prompt-builder.ts:48 | without bars in the fields, the experience header splits at its bars into the bold company, role, location and period |
| `PromptBuilder.EducationLineFields` | src/prompt-builder.ts:54 | the education line splits into degree, institution and the dates with the optional status |
| `PromptBuilder.ParsedPrompt` | src/index.ts:23-25 | `buildPrompt` applied to the parser's output, each education entry read with both dates `undefined` and no status; `PromptBuilder.ParsedPromptIgnoresYears` states what follows |
| `PromptBuilder.ParsedEducationLine` | src/prompt-builder.ts:54 | a parsed education entry gives the line `- degree \| institution \| undefined - undefined`, without its year |
| `PromptBuilder.ParsedPromptIgnoresYears` | src/prompt-builder.ts:54 | two parsed resumes that differ only in the years of their education entries give the same prompt |
| `PromptBuilder.JobDescriptionSlot` | src/prompt-builder.ts:59-61 | the job description sits verbatim between the `## Job Description` heading and the output format |
| `PromptBuilder.JobDescriptionRecovered` | src/prompt-builder.ts:59-61 | for a fixed resume, different job descriptions give different prompts |
| `PromptBuilder.BuildPrompt` | src/prompt-builder.ts:3-90 | the prompt `buildPrompt` returns; `PromptBuilder.PromptFrame`, `PromptBuilder.JobDescriptionSlot`, `PromptBuilder.JobDescriptionRecovered` and `PromptBuilder.PromptLines` state its frame, its job-description slot and its lines |
| `PromptBuilder.PromptFrame` | src/prompt-builder.ts:3-90 | every prompt starts with the fixed rules and ends with the fixed output format |
| `PromptBuilder.EntryTextLines` | src/prompt-builder.ts:47-49 | an experience entry is an empty line, the header line and one `- ` line per bullet |
| `PromptBuilder.ExperienceTextLines` | src/prompt-builder.ts:44-51 | the experience text is the entries' lines one after another |
| `PromptBuilder.EducationTextLines` | src/prompt-builder.ts:53-54 | the education text is one line per entry |
| `PromptBuilder.SectionChunksLines` | src/prompt-builder.ts:41-57 | the resume sections appear as lines in order: skills, experience, education and languages, each after an empty line and its `###` heading |
| `PromptBuilder.ResumeChunksLines` | src/prompt-builder.ts:33-57 | with one-line values, the resume part is the profile lines followed by the section lines |
| `PromptBuilder.PromptLines` | src/prompt-builder.ts:3-90 | with one-line resume values, the prompt's lines are the rules, the resume, the job heading, the job description's own lines, an empty line and the output format |
| `ResumeTemplate.ResumeTemplate` | src/extract-pdf.ts:13-44 | the text `generateResumeTemplate` returns; `ResumeTemplate.TemplateFrame`, `ResumeTemplate.TemplateLinesOf` and `ResumeTemplate.TemplateRoundTrip` state its frame, its lines and what the parser reads from it |
| `ResumeTemplate.TemplateFrame` | src/extract-pdf.ts:13-44 | the output is the fixed prefix, the extracted text verbatim and a final line feed |
| `ResumeTemplate.ExtractedTextRecovered` | src/extract-pdf.ts:42 | the extracted text can be cut back out of the output |
| `ResumeTemplate.TemplateInjective` | src/extract-pdf.ts:13-44 | different extracted texts give different templates |
| `ResumeTemplate.EmptyExtractedText` | src/extract-pdf.ts:42-43 | an empty extracted text leaves the prefix and a final line feed |
| `ResumeTemplate.TemplateOneLine` | src/extract-pdf.ts:14-41 | every fixed line is a single line |
| `ResumeTemplate.TemplateLinesOf` | src/extract-pdf.ts:13-44 | the output's lines are the 28 fixed lines, the extracted text's lines and a final empty line |
| `ResumeTemplate.TemplateHeadingLines` | src/extract-pdf.ts:14-35 | the output opens with `# PROFILE`; the four other section headings and both placeholder entry headers follow at fixed lines, in order |
| `ResumeTemplate.TemplateTitles` | src/extract-pdf.ts:14-40 | the five section headings carry the parser's titles, and the reference heading carries none of them |
| `ResumeTemplate.HeadingAt` | src/extract-pdf.ts:14-42 | the only heading lines in the output are the six fixed ones, apart from lines of the extracted text, and none of those has a parsed title |
| `ResumeTemplate.TemplateSection` | src/extract-pdf.ts:14-40 | each parsed section of the output is the trimmed fixed lines between its heading and the next one |
| `ResumeTemplate.BareLabelsProfile` | src/parse-resume.ts:65-88 | lines that are only a label, with nothing after the colon, give the empty profile |
| `ResumeTemplate.TemplateProfile` | src/extract-pdf.ts:14-21 | the template's PROFILE section parses to the empty profile |
| `ResumeTemplate.TemplateSkills` | src/extract-pdf.ts:22-25 | the skills placeholder `-` parses to one empty skill |
| `ResumeTemplate.TemplateExperience` | src/extract-pdf.ts:26-30 | the experience placeholder parses to one experience, `Company`/`Role`/`Start - End`, with no location and one empty bullet |
| `ResumeTemplate.TemplateEducation` | src/extract-pdf.ts:31-34 | the education placeholder parses to `Degree`/`Institution`/`Year` |
| `ResumeTemplate.TemplateLanguages` | src/extract-pdf.ts:35-39 | the languages section parses to an empty language and, from the `---` rule, the language `--` |
| `ResumeTemplate.ThreeFieldExperience` | src/parse-resume.ts:122-129 | a `a \| b \| c` header with plain fields parses to company a, role b, no location and period c |
| `ResumeTemplate.ThreeFieldEducation` | src/parse-resume.ts:142-149 | a `a \| b \| c` header with plain fields parses to degree a, institution b and year c |
| `ResumeTemplate.TemplateRoundTrip` | src/extract-pdf.ts:13-44 | the parser reads the template back as exactly one resume. It has the empty profile, the skills `[""]`, the placeholder experience and education, and the languages `["", "--"]`. This holds whatever the extracted text, as long as none of its lines is a `# ` heading with one of the five parsed titles |

## Left out

- Reading files (`parseResume` at src/parse-resume.ts:33-36) is left out, because it is I/O. The model starts from the file's text.
- `extractPdfText` (src/extract-pdf.ts:4-11) is left out. It calls the PDF library and is asynchronous I/O.
- The command line, the model call and the Typst compiler are not part of this model: src/index.ts and src/compile.ts.
- The tests are not part of this model: src/__tests__.
- Only `\n` ends a line. JavaScript's `^`, `$` and `.` also treat `\r`, U+2028 and U+2029 as line terminators. Text with those characters is outside the model.
- White space for `trim` and `\s` is the ASCII set only: space, tab, line feed, vertical tab, form feed and carriage return. JavaScript's Unicode spaces and the byte-order mark are not modelled.
- LazyRegex.HeaderMatch: states the groups only for headers whose fields are not blank. The matcher itself covers every header, and `LazyRegex.HeaderTooFewBars` holds for all of them.
- ParseResume.ExperienceFourFields: only for headers whose first four fields are not blank.
- ParseResume.ExperienceThreeFields: only for headers whose three fields are not blank.
- ParseResume.EducationFields: only for headers whose first three fields are not blank.
- TypstTemplate.ContactPlain: only for profiles without GitHub and LinkedIn values. The link URL holds the raw value, so it is not escaped text. `TypstTemplate.ContactLinks` and `TypstTemplate.ContactPieces` cover the links.
- ResumeTemplate.TemplateRoundTrip: assumes the extracted text has no heading line with a parsed title. Such a line would start or replace one of the five sections.
- TypstTemplate.TypstLines: requires every inserted value to be a single line. `TypstTemplate.TypstOf` itself accepts any text.
- PromptBuilder.PromptLines: requires every resume value to be a single line. The job description may have several lines, and `PromptBuilder.BuildPrompt` itself accepts any text.
- PromptBuilder.ResumeChunksLines: requires every resume value to be a single line, for the same reason.
- Typst layout and the page-setup commands of the preamble are modelled only as fixed text. What Typst draws from it is out of scope.
- Escaping covers the six characters `\`, `#`, `$`, `@`, `<` and `>`, as the source does. Other Typst markup, such as `*`, `_` or `[`, passes through unchanged, and the model keeps that behaviour.
