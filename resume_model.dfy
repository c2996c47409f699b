/** The records the resume tool passes between its stages: the parsed
    `Resume`, its profile, experience and education entries, and the
    `TailoredResume` that comes back from the language model.

    The parser fills education entries with a single `year`
    (`Education`), while the prompt builder and the Typst renderer read
    `startDate`, `endDate` and an optional `status` (`DatedEducation`).
    `Resume` is therefore generic in its education entry. */
module ResumeModel {
  import opened Wrappers
  import opened Layout

  /** The `profile` record: `name` is always set, the other fields may be absent. */
  datatype Profile = Profile(
    name: string,
    phone: Option<string>,
    location: Option<string>,
    github: Option<string>,
    linkedin: Option<string>,
    email: Option<string>,
    summary: Option<string>)

  datatype Experience = Experience(
    company: string,
    role: string,
    location: string,
    period: string,
    bullets: seq<string>)

  /** An education entry as the parser produces it. */
  datatype Education = Education(degree: string, institution: string, year: string)

  /** An education entry as the prompt builder and the renderer read it. */
  datatype DatedEducation = DatedEducation(
    degree: string,
    institution: string,
    startDate: string,
    endDate: string,
    status: Option<string>)

  datatype Resume<E> = Resume(
    profile: Profile,
    skills: seq<string>,
    experience: seq<Experience>,
    education: seq<E>,
    languages: seq<string>)

  datatype TailoredResume = TailoredResume(
    summary: string,
    skills: seq<string>,
    experience: seq<Experience>,
    education: seq<DatedEducation>,
    languages: seq<string>)

  /** The profile of an empty PROFILE section: an empty name, nothing else. */
  const EmptyProfile := Profile("", None, None, None, None, None, None)

  /** JavaScript truthiness of an optional string: present and not empty. */
  predicate Truthy(o: Option<string>) {
    o.Some? && o.value != ""
  }

  /** No text of an experience entry contains a line feed. */
  predicate EntryOneLine(e: Experience) {
    OneLine(e.company) && OneLine(e.role) && OneLine(e.location) && OneLine(e.period)
    && forall j :: 0 <= j < |e.bullets| ==> OneLine(e.bullets[j])
  }

  /** No text of an education entry contains a line feed. */
  predicate EducationOneLine(ed: DatedEducation) {
    OneLine(ed.degree) && OneLine(ed.institution) && OneLine(ed.startDate)
    && OneLine(ed.endDate) && (ed.status.Some? ==> OneLine(ed.status.value))
  }
}
