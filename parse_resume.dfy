/** The Markdown resume parser: `parseResumeContent` and the section parsers
    it composes. The parser is total: every document yields a resume, and
    entries whose header does not match are dropped without an error. */
module ParseResume {
  import opened Wrappers
  import opened Text
  import opened Seqs
  import opened LazyRegex
  import opened Sections
  import opened ResumeModel

  /** `filter((l) => l.trim())`: keeps the text unless it is blank. */
  function KeepNonBlank(s: string): (r: Option<string>)
    ensures r.Some? <==> !IsBlank(s)
    ensures r.Some? ==> r.value == s
  {
    if Trim(s) == [] then None else Some(s)
  }

  // ---------------------------------------------------------------------------
  // Bullets: `split("\n").filter(l => l.trim().startsWith("-"))
  //                      .map(l => l.replace(/^-\s*/, "").trim())`.

  predicate IsBulletLine(l: string) {
    StartsWith(Trim(l), "-")
  }

  /** The value of a bullet line: a dash at the very start of the line and the
      white space after it are removed, then the rest is trimmed. An indented
      dash is not at the start, so it stays. */
  function BulletText(l: string): string {
    Trim(if StartsWith(l, "-") then TrimStart(l[1..]) else l)
  }

  function BulletOf(l: string): Option<string> {
    if IsBulletLine(l) then Some(BulletText(l)) else None
  }

  /** The bullet values of some lines. */
  function Bullets(lines: seq<string>): seq<string> {
    Collect(lines, BulletOf)
  }

  /** Exactly one value per line whose trimmed form starts with `-`, in
      document order: value k comes from line idx[k]. */
  lemma BulletsByLine(lines: seq<string>) returns (idx: seq<nat>)
    ensures |idx| == |Bullets(lines)|
    ensures forall k :: 0 <= k < |idx| ==>
      idx[k] < |lines| && IsBulletLine(lines[idx[k]]) && Bullets(lines)[k] == BulletText(lines[idx[k]])
    ensures forall k, k' :: 0 <= k < k' < |idx| ==> idx[k] < idx[k']
    ensures forall i :: 0 <= i < |lines| && IsBulletLine(lines[i]) ==> i in idx
  {
    idx := CollectSources(lines, BulletOf);
    forall i | 0 <= i < |lines| && IsBulletLine(lines[i]) ensures i in idx {
      assert BulletOf(lines[i]).Some?;
    }
  }

  /** A line that starts with a dash loses the dash and is trimmed. */
  lemma BulletTextDash(l: string)
    requires StartsWith(l, "-")
    ensures BulletText(l) == Trim(l[1..])
  {
    TrimOfTrimStart(l[1..]);
  }

  /** The examples: an indented `  - x` keeps its dash, a lone `-` gives the
      empty string and a `---` rule gives `--`. */
  lemma BulletTextExamples()
    ensures BulletText("  - x") == "- x"
    ensures BulletText("-") == ""
    ensures BulletText("---") == "--"
  {
    TrimAround("  ", "- x", "");
    assert "  " + "- x" + "" == "  - x";
    BulletTextDash("-");
    assert Trim("") == "";
    BulletTextDash("---");
    TrimOfTrimmed("--");
  }

  /** `parseSkills` and `parseLanguages`: the two are the same pipeline. */
  function BulletList(section: string): seq<string> {
    Bullets(Lines(section))
  }

  // ---------------------------------------------------------------------------
  // Profile.

  const NameKey := "**Name**:"
  const PhoneKey := "**Phone**:"
  const LocationKey := "**Location**:"
  const GitHubKey := "**GitHub**:"
  const LinkedInKey := "**LinkedIn**:"
  const EmailKey := "**Email**:"
  const SummaryKey := "**Summary**:"

  /** The value of `key` on the last of `lines` on which the label pattern matches. */
  function LastLabel(lines: seq<string>, key: string): Option<string>
    requires |key| > 0
  {
    if lines == [] then None
    else
      var n := |lines| - 1;
      match LabelValue(lines[n], key)
      case Some(v) => Some(v)
      case None => LastLabel(lines[..n], key)
  }

  /** The line that decides a field is the last one on which its label matches. */
  lemma {:induction false} LastLabelAt(lines: seq<string>, key: string, i: nat)
    requires |key| > 0 && i < |lines| && LabelValue(lines[i], key).Some?
    requires forall j :: i < j < |lines| ==> LabelValue(lines[j], key).None?
    ensures LastLabel(lines, key) == LabelValue(lines[i], key)
    decreases |lines|
  {
    var n := |lines| - 1;
    if i < n {
      assert lines[..n][i] == lines[i];
      assert forall j :: i < j < n ==> lines[..n][j] == lines[j];
      LastLabelAt(lines[..n], key, i);
    }
  }

  /** A field stays absent exactly when its label matches on no line. */
  lemma {:induction false} LastLabelNone(lines: seq<string>, key: string)
    requires |key| > 0
    ensures LastLabel(lines, key).None? <==> forall i :: 0 <= i < |lines| ==> LabelValue(lines[i], key).None?
  {
    if lines != [] {
      var n := |lines| - 1;
      assert forall i :: 0 <= i < n ==> lines[..n][i] == lines[i];
      LastLabelNone(lines[..n], key);
    }
  }

  lemma LastLabelStep(lines: seq<string>, key: string, i: nat)
    requires |key| > 0 && i < |lines|
    ensures LastLabel(lines[..i + 1], key) ==
      match LabelValue(lines[i], key) case Some(v) => Some(v) case None => LastLabel(lines[..i], key)
  {
    assert lines[..i + 1][..i] == lines[..i];
  }

  function OrEmpty(o: Option<string>): string {
    match o case Some(v) => v case None => ""
  }

  /** The profile that the label lines among `lines` describe: each field is
      set by the last line on which its own label matches, independently of
      the other labels; `name` defaults to the empty string. */
  function ProfileFrom(lines: seq<string>): Profile {
    Profile(
      OrEmpty(LastLabel(lines, NameKey)),
      LastLabel(lines, PhoneKey),
      LastLabel(lines, LocationKey),
      LastLabel(lines, GitHubKey),
      LastLabel(lines, LinkedInKey),
      LastLabel(lines, EmailKey),
      LastLabel(lines, SummaryKey))
  }

  /** What `parseProfile` returns for a section. */
  function ProfileOf(section: string): Profile {
    ProfileFrom(Collect(Lines(section), KeepNonBlank))
  }

  /** `parseProfile`: one pass over the non-blank lines, every label tried on
      every line and the fields overwritten in place. */
  method ParseProfile(section: string) returns (profile: Profile)
    ensures profile == ProfileOf(section)
  {
    var lines := Collect(Lines(section), KeepNonBlank);
    profile := EmptyProfile;
    for i := 0 to |lines|
      invariant profile == ProfileFrom(lines[..i])
    {
      var line := lines[i];
      var nameMatch := LabelValue(line, NameKey);
      var phoneMatch := LabelValue(line, PhoneKey);
      var locationMatch := LabelValue(line, LocationKey);
      var githubMatch := LabelValue(line, GitHubKey);
      var linkedinMatch := LabelValue(line, LinkedInKey);
      var emailMatch := LabelValue(line, EmailKey);
      var summaryMatch := LabelValue(line, SummaryKey);
      LastLabelStep(lines, NameKey, i);
      LastLabelStep(lines, PhoneKey, i);
      LastLabelStep(lines, LocationKey, i);
      LastLabelStep(lines, GitHubKey, i);
      LastLabelStep(lines, LinkedInKey, i);
      LastLabelStep(lines, EmailKey, i);
      LastLabelStep(lines, SummaryKey, i);
      if nameMatch.Some? { profile := profile.(name := nameMatch.value); }
      if phoneMatch.Some? { profile := profile.(phone := phoneMatch); }
      if locationMatch.Some? { profile := profile.(location := locationMatch); }
      if githubMatch.Some? { profile := profile.(github := githubMatch); }
      if linkedinMatch.Some? { profile := profile.(linkedin := linkedinMatch); }
      if emailMatch.Some? { profile := profile.(email := emailMatch); }
      if summaryMatch.Some? { profile := profile.(summary := summaryMatch); }
    }
    assert lines[..|lines|] == lines;
  }

  // ---------------------------------------------------------------------------
  // Entries: `section.split(/^## /m)`.

  /** The lines of the pieces of `section.split(/^## /m)`, where `lines` are
      the lines of the section. A line starting with `## ` begins a new piece
      with the rest of the line; the piece before it ends with the line break
      in front of that line, so its own lines end with an empty one. */
  function Fragments(lines: seq<string>): (r: seq<seq<string>>)
    requires |lines| >= 1
    ensures |r| >= 1
    ensures forall k :: 0 <= k < |r| ==> |r[k]| >= 1
    decreases |lines|
  {
    var l := lines[|lines| - 1];
    if |lines| == 1 then
      (if StartsWith(l, "## ") then [[""], [l[3..]]] else [[l]])
    else
      var r := Fragments(lines[..|lines| - 1]);
      var last := r[|r| - 1];
      if StartsWith(l, "## ") then r[..|r| - 1] + [last + [""]] + [[l[3..]]]
      else r[..|r| - 1] + [last + [l]]
  }

  /** Each fragment joined back into the text of its piece. */
  function JoinEach(fs: seq<seq<string>>): (r: seq<string>)
    ensures |r| == |fs|
  {
    if fs == [] then [] else JoinEach(fs[..|fs| - 1]) + [Join(fs[|fs| - 1], "\n")]
  }

  lemma JoinSnoc(xs: seq<string>, a: string, sep: string)
    requires |xs| >= 1
    ensures Join(xs + [a], sep) == Join(xs, sep) + sep + a
  {
    JoinAppend(xs, [a], sep);
  }

  /** Extending the last part extends the join. */
  lemma JoinExtendLast(xs: seq<string>, y: string, z: string, sep: string)
    ensures Join(xs + [y + z], sep) == Join(xs + [y], sep) + z
  {
    if xs == [] {
      assert xs + [y + z] == [y + z];
      assert xs + [y] == [y];
    } else {
      JoinSnoc(xs, y + z, sep);
      JoinSnoc(xs, y, sep);
    }
  }

  lemma JoinEachSnoc(fs: seq<seq<string>>, f: seq<string>)
    ensures JoinEach(fs + [f]) == JoinEach(fs) + [Join(f, "\n")]
  {
    assert (fs + [f])[..|fs|] == fs;
  }

  /** Appending a line to the last piece appends it, after a line break, to
      the joined text. */
  lemma PiecesExtend(r: seq<seq<string>>, l: string)
    requires |r| >= 1 && |r[|r| - 1]| >= 1
    ensures Join(JoinEach(r[..|r| - 1] + [r[|r| - 1] + [l]]), "## ") == Join(JoinEach(r), "## ") + "\n" + l
  {
    var m := |r| - 1;
    var last := r[m];
    assert r == r[..m] + [last];
    JoinEachSnoc(r[..m], last);
    JoinEachSnoc(r[..m], last + [l]);
    JoinAppend(last, [l], "\n");
    var y := Join(last, "\n");
    assert Join(last + [l], "\n") == y + ("\n" + l);
    JoinExtendLast(JoinEach(r[..m]), y, "\n" + l, "## ");
  }

  /** Closing the last piece with an empty line and starting a new one puts
      a line break and the `## ` separator in between. */
  lemma PiecesSplit(r: seq<seq<string>>, rest: string)
    requires |r| >= 1 && |r[|r| - 1]| >= 1
    ensures Join(JoinEach(r[..|r| - 1] + [r[|r| - 1] + [""]] + [[rest]]), "## ")
      == Join(JoinEach(r), "## ") + "\n" + ("## " + rest)
  {
    var m := |r| - 1;
    var r' := r[..m] + [r[m] + [""]];
    PiecesExtend(r, "");
    JoinEachSnoc(r', [rest]);
    assert |JoinEach(r')| >= 1;
    JoinSnoc(JoinEach(r'), rest, "## ");
  }

  /** Joining the pieces with the `## ` separator that the split removed
      gives the section back. */
  lemma {:induction false} FragmentsJoin(lines: seq<string>)
    requires |lines| >= 1
    ensures Join(JoinEach(Fragments(lines)), "## ") == Join(lines, "\n")
    decreases |lines|
  {
    var n := |lines| - 1;
    var l := lines[n];
    if n == 0 {
      if StartsWith(l, "## ") {
        assert JoinEach([[""], [l[3..]]]) == JoinEach([[""]]) + [l[3..]];
        assert JoinEach([[""]]) == [""];
        assert l == "## " + l[3..];
      }
    } else {
      FragmentsJoin(lines[..n]);
      assert lines == lines[..n] + [l];
      JoinSnoc(lines[..n], l, "\n");
      if StartsWith(l, "## ") {
        PiecesSplit(Fragments(lines[..n]), l[3..]);
        assert l == "## " + l[3..];
      } else {
        PiecesExtend(Fragments(lines[..n]), l);
      }
    }
  }

  /** Every line of a piece is a line of the section or a part of one. */
  lemma {:induction false} FragmentsFree(lines: seq<string>)
    requires |lines| >= 1
    requires forall i :: 0 <= i < |lines| ==> '\n' !in lines[i]
    ensures forall k, j :: 0 <= k < |Fragments(lines)| && 0 <= j < |Fragments(lines)[k]| ==>
      '\n' !in Fragments(lines)[k][j]
    decreases |lines|
  {
    var n := |lines| - 1;
    var l := lines[n];
    assert '\n' !in l;
    if n > 0 {
      forall i | 0 <= i < n ensures '\n' !in lines[..n][i] {
        assert lines[..n][i] == lines[i];
      }
      FragmentsFree(lines[..n]);
      FreeExtend(Fragments(lines[..n]), l);
    } else if StartsWith(l, "## ") {
      assert forall c :: c in l[3..] ==> c in l;
    }
  }

  /** Pieces with no line feed in any line. */
  predicate NoLineFeed(fs: seq<seq<string>>) {
    forall k, j :: 0 <= k < |fs| && 0 <= j < |fs[k]| ==> '\n' !in fs[k][j]
  }

  /** Adding a line without a line feed to the last piece, or closing it and
      starting a new piece, keeps every line free of line feeds. */
  lemma FreeExtend(r: seq<seq<string>>, l: string)
    requires |r| >= 1 && NoLineFeed(r) && '\n' !in l
    ensures |l| >= 3 ==> NoLineFeed(r[..|r| - 1] + [r[|r| - 1] + [""]] + [[l[3..]]])
    ensures NoLineFeed(r[..|r| - 1] + [r[|r| - 1] + [l]])
  {
    if |l| >= 3 {
      assert forall c :: c in l[3..] ==> c in l;
    }
  }

  /** No `## ` line stays inside a piece: apart from the first line of a
      later piece, which held the separator, no line of a piece starts with it. */
  lemma {:induction false} FragmentsNoMarker(lines: seq<string>)
    requires |lines| >= 1
    ensures forall k, j :: 0 <= k < |Fragments(lines)| && 0 <= j < |Fragments(lines)[k]| && (k == 0 || j >= 1) ==>
      !StartsWith(Fragments(lines)[k][j], "## ")
    decreases |lines|
  {
    var n := |lines| - 1;
    if n > 0 {
      FragmentsNoMarker(lines[..n]);
    }
  }

  /** `section.split(/^## /m)`: the pieces of the section as strings. */
  function SplitSubHeadings(section: string): (r: seq<string>)
    ensures Join(r, "## ") == section
  {
    var lines := Lines(section);
    FragmentsJoin(lines);
    JoinSplit(section, '\n');
    JoinEach(Fragments(lines))
  }

  /** `entry.split("\n")` of a piece gives back the lines of its fragment. */
  lemma PieceLines(section: string, k: nat)
    requires k < |SplitSubHeadings(section)|
    ensures Lines(SplitSubHeadings(section)[k]) == Fragments(Lines(section))[k]
  {
    var fs := Fragments(Lines(section));
    SplitPartsFree(section, '\n');
    FragmentsFree(Lines(section));
    JoinEachAt(fs, k);
    SplitJoin(fs[k], '\n');
  }

  lemma {:induction false} JoinEachAt(fs: seq<seq<string>>, k: nat)
    requires k < |fs|
    ensures JoinEach(fs)[k] == Join(fs[k], "\n")
    decreases |fs|
  {
    var n := |fs| - 1;
    if k < n {
      JoinEachAt(fs[..n], k);
    }
  }

  /** The non-blank pieces: the entries the two loops below run over. */
  function Entries(section: string): seq<string> {
    Collect(SplitSubHeadings(section), KeepNonBlank)
  }

  /** The first line of an entry, trimmed, split at its bars. */
  function HeaderSegments(entry: string): seq<string> {
    Split(Trim(Lines(entry)[0]), '|')
  }

  /** The experience an entry contributes: the four-field header is tried
      first, then the three-field one with an empty location; an entry
      matching neither contributes nothing. */
  function ExperienceOf(entry: string): Option<Experience> {
    var lines := Lines(entry);
    var header := Trim(lines[0]);
    var bullets := Bullets(lines[1..]);
    match Search(header, 3, 0)
    case Some(g) => Some(Experience(Trim(g[0]), Trim(g[1]), Trim(g[2]), Trim(g[3]), bullets))
    case None =>
      match Search(header, 2, 0)
      case Some(g) => Some(Experience(Trim(g[0]), Trim(g[1]), "", Trim(g[2]), bullets))
      case None => None
  }

  /** The education an entry contributes, from its three-field header. */
  function EducationOf(entry: string): Option<Education> {
    var header := Trim(Lines(entry)[0]);
    match Search(header, 2, 0)
    case Some(g) => Some(Education(Trim(g[0]), Trim(g[1]), Trim(g[2])))
    case None => None
  }

  /** `parseExperience`: a loop over the entries that pushes one experience
      per entry whose header matches. */
  method ParseExperience(section: string) returns (experiences: seq<Experience>)
    ensures experiences == Collect(Entries(section), ExperienceOf)
    ensures |experiences| <= |Entries(section)|
  {
    var entries := Entries(section);
    experiences := [];
    for i := 0 to |entries|
      invariant experiences == Collect(entries[..i], ExperienceOf)
    {
      var lines := Lines(entries[i]);
      var header := Trim(lines[0]);
      var fourPartMatch := Search(header, 3, 0);
      var threePartMatch := Search(header, 2, 0);
      var bullets := Bullets(lines[1..]);
      CollectPrefix(entries, i, ExperienceOf);
      if fourPartMatch.Some? {
        var g := fourPartMatch.value;
        experiences := experiences + [Experience(Trim(g[0]), Trim(g[1]), Trim(g[2]), Trim(g[3]), bullets)];
      } else if threePartMatch.Some? {
        var g := threePartMatch.value;
        experiences := experiences + [Experience(Trim(g[0]), Trim(g[1]), "", Trim(g[2]), bullets)];
      }
    }
    assert entries[..|entries|] == entries;
  }

  /** `parseEducation`: a loop over the entries that pushes one education
      entry per entry whose header matches. */
  method ParseEducation(section: string) returns (education: seq<Education>)
    ensures education == Collect(Entries(section), EducationOf)
    ensures |education| <= |Entries(section)|
  {
    var entries := Entries(section);
    education := [];
    for i := 0 to |entries|
      invariant education == Collect(entries[..i], EducationOf)
    {
      var header := Trim(Lines(entries[i])[0]);
      var headerMatch := Search(header, 2, 0);
      CollectPrefix(entries, i, EducationOf);
      if headerMatch.Some? {
        var g := headerMatch.value;
        education := education + [Education(Trim(g[0]), Trim(g[1]), Trim(g[2]))];
      }
    }
    assert entries[..|entries|] == entries;
  }

  // ---------------------------------------------------------------------------
  // Header decoding, for headers whose bar-separated segments are not blank.

  /** Three or more bars: company, role, location and the whole rest after the
      third bar as the period. */
  lemma ExperienceFourFields(entry: string)
    requires |HeaderSegments(entry)| >= 4
    requires forall k :: 0 <= k <= 3 ==> !IsBlank(HeaderSegments(entry)[k])
    ensures var segs := HeaderSegments(entry);
      ExperienceOf(entry) == Some(Experience(Trim(segs[0]), Trim(segs[1]), Trim(segs[2]),
        Trim(Join(segs[3..], "|")), Bullets(Lines(entry)[1..])))
  {
    var g := HeaderMatch(Trim(Lines(entry)[0]), 3);
  }

  /** Exactly two bars: company, role and period, with an empty location. */
  lemma ExperienceThreeFields(entry: string)
    requires |HeaderSegments(entry)| == 3
    requires forall k :: 0 <= k <= 2 ==> !IsBlank(HeaderSegments(entry)[k])
    ensures var segs := HeaderSegments(entry);
      ExperienceOf(entry) == Some(Experience(Trim(segs[0]), Trim(segs[1]), "", Trim(segs[2]),
        Bullets(Lines(entry)[1..])))
  {
    var h := Trim(Lines(entry)[0]);
    HeaderTooFewBars(h, 3);
    var g := HeaderMatch(h, 2);
    assert HeaderSegments(entry)[2..] == [HeaderSegments(entry)[2]];
  }

  /** Fewer than two bars: the entry is dropped. */
  lemma ExperienceTooFewBars(entry: string)
    requires |HeaderSegments(entry)| <= 2
    ensures ExperienceOf(entry).None?
  {
    var h := Trim(Lines(entry)[0]);
    HeaderTooFewBars(h, 3);
    HeaderTooFewBars(h, 2);
  }

  /** Two or more bars: degree, institution and the whole rest after the
      second bar, further bars included, as the year. */
  lemma EducationFields(entry: string)
    requires |HeaderSegments(entry)| >= 3
    requires forall k :: 0 <= k <= 2 ==> !IsBlank(HeaderSegments(entry)[k])
    ensures var segs := HeaderSegments(entry);
      EducationOf(entry) == Some(Education(Trim(segs[0]), Trim(segs[1]), Trim(Join(segs[2..], "|"))))
  {
    var g := HeaderMatch(Trim(Lines(entry)[0]), 2);
  }

  lemma EducationTooFewBars(entry: string)
    requires |HeaderSegments(entry)| <= 2
    ensures EducationOf(entry).None?
  {
    HeaderTooFewBars(Trim(Lines(entry)[0]), 2);
  }

  lemma SpacedBar(c: string, d: string)
    ensures (" " + c + " ") + "|" + (" " + d) == " " + (c + " | " + d) + ""
  {
    assert " | " == " " + "|" + " ";
  }

  /** The segments of a one-line entry `a | b | c | d`. */
  lemma SegmentsOfFour(a: string, b: string, c: string, d: string)
    requires a != [] && d != [] && IsTrimmed(a) && IsTrimmed(d)
    requires '|' !in a && '|' !in b && '|' !in c && '|' !in d
    requires '\n' !in a && '\n' !in b && '\n' !in c && '\n' !in d
    ensures HeaderSegments(a + " | " + b + " | " + c + " | " + d) == [a + " ", " " + b + " ", " " + c + " ", " " + d]
  {
    var entry := a + " | " + b + " | " + c + " | " + d;
    var parts := [a + " ", " " + b + " ", " " + c + " ", " " + d];
    assert '\n' !in entry;
    SplitNoSeparator(entry, '\n');
    assert entry[0] == a[0] && entry[|entry| - 1] == d[|d| - 1];
    TrimOfTrimmed(entry);
    assert Join(parts, "|") == entry by {
      assert Join(parts[3..], "|") == " " + d;
      assert Join(parts[2..], "|") == " " + c + " " + "|" + (" " + d);
      assert Join(parts[1..], "|") == " " + b + " " + "|" + (" " + c + " " + "|" + (" " + d));
    }
    assert forall k :: 0 <= k < 4 ==> '|' !in parts[k];
    SplitJoin(parts, '|');
  }

  lemma TrimSpaced(a: string, b: string, c: string, d: string)
    requires IsTrimmed(a) && IsTrimmed(b) && c != [] && d != [] && IsTrimmed(c) && IsTrimmed(d)
    ensures Trim(a + " ") == a && Trim(" " + b + " ") == b
    ensures Trim(Join([" " + c + " ", " " + d], "|")) == c + " | " + d
  {
    TrimAround("", a, " ");
    assert "" + a + " " == a + " ";
    TrimAround(" ", b, " ");
    assert Join([" " + c + " ", " " + d], "|") == (" " + c + " ") + "|" + (" " + d);
    SpacedBar(c, d);
    assert (c + " | " + d)[0] == c[0] && (c + " | " + d)[|c + " | " + d| - 1] == d[|d| - 1];
    TrimAround(" ", c + " | " + d, "");
  }

  /** A header with a third bar, such as `B.S. | MIT | 2016 | 2018`, keeps
      the third bar in the year: here `2016 | 2018`. */
  lemma EducationYearKeepsBars(a: string, b: string, c: string, d: string)
    requires a != [] && b != [] && c != [] && d != []
    requires IsTrimmed(a) && IsTrimmed(b) && IsTrimmed(c) && IsTrimmed(d)
    requires '|' !in a && '|' !in b && '|' !in c && '|' !in d
    requires '\n' !in a && '\n' !in b && '\n' !in c && '\n' !in d
    ensures EducationOf(a + " | " + b + " | " + c + " | " + d) == Some(Education(a, b, c + " | " + d))
  {
    var entry := a + " | " + b + " | " + c + " | " + d;
    var parts := [a + " ", " " + b + " ", " " + c + " ", " " + d];
    SegmentsOfFour(a, b, c, d);
    assert (a + " ")[0] == a[0] && (" " + b + " ")[1] == b[0] && (" " + c + " ")[1] == c[0];
    EducationFields(entry);
    assert parts[2..] == [" " + c + " ", " " + d];
    TrimSpaced(a, b, c, d);
  }

  // ---------------------------------------------------------------------------
  // The whole document.

  /** `sections[title] || ""`. */
  function SectionOrEmpty(sections: map<string, string>, title: string): string {
    if title in sections then sections[title] else ""
  }

  /** What `parseResumeContent` returns. */
  function ResumeOf(content: string): Resume<Education> {
    var sections := SectionsOf(content);
    Resume(
      ProfileOf(SectionOrEmpty(sections, "PROFILE")),
      BulletList(SectionOrEmpty(sections, "MAIN TECHS AND SKILLS")),
      Collect(Entries(SectionOrEmpty(sections, "PROFESSIONAL EXPERIENCE")), ExperienceOf),
      Collect(Entries(SectionOrEmpty(sections, "EDUCATION")), EducationOf),
      BulletList(SectionOrEmpty(sections, "LANGUAGES")))
  }

  /** `parseResumeContent`: split into sections, then parse the five known ones. */
  method ParseResumeContent(content: string) returns (resume: Resume<Education>)
    ensures resume == ResumeOf(content)
  {
    var sections := SplitSections(content);
    var profile := ParseProfile(SectionOrEmpty(sections, "PROFILE"));
    var experience := ParseExperience(SectionOrEmpty(sections, "PROFESSIONAL EXPERIENCE"));
    var education := ParseEducation(SectionOrEmpty(sections, "EDUCATION"));
    resume := Resume(
      profile,
      BulletList(SectionOrEmpty(sections, "MAIN TECHS AND SKILLS")),
      experience,
      education,
      BulletList(SectionOrEmpty(sections, "LANGUAGES")));
  }

  /** The empty resume: an empty name and nothing else. */
  const EmptyResume: Resume<Education> := Resume(EmptyProfile, [], [], [], [])

  /** Every section parser gives its empty result on the empty section. */
  lemma EmptySection()
    ensures ProfileOf("") == EmptyProfile
    ensures BulletList("") == []
    ensures Entries("") == []
  {
    assert Lines("") == [""];
    assert Collect([""], KeepNonBlank) == [] by { CollectOne("", KeepNonBlank); }
    CollectOne("", BulletOf);
    assert Fragments([""]) == [[""]];
    assert SplitSubHeadings("") == [""];
    CollectOne("", KeepNonBlank);
  }

  /** A document without any `# ` heading line, the empty one included,
      parses to the empty resume. */
  lemma NoHeadingsEmptyResume(content: string)
    requires forall k :: 0 <= k < |Lines(content)| ==> !IsHeadingLine(Lines(content)[k])
    ensures ResumeOf(content) == EmptyResume
  {
    NoHeadingsNoSections(content);
    EmptySection();
  }

  lemma EmptyDocument()
    ensures ResumeOf("") == EmptyResume
  {
    assert Lines("") == [""];
    NoHeadingsEmptyResume("");
  }
}
