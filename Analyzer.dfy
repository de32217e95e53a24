/** The top level of app.py (analyze_resume): the e-mail address, the
    candidate's name, and the three parsed sections of a résumé's text. */
module Analyzer {
  import opened Text
  import Sections
  import Skills
  import Education
  import Experience

  /** The dictionary analyze_resume returns. */
  datatype Resume = Resume(
    name: string,
    email: string,
    skills: set<string>,
    education: seq<Education.Entry>,
    experience: seq<Experience.Job>)

  const NotFound: string := "Not Found"

  /** The first non-blank line, unless it mentions "resume" (the title of
      the document), in which case the second; "Unknown" when there is no
      second line, and "Not Found" when there is no line at all. */
  function NameOf(text: string): string {
    NameOfLines(CleanLines(text))
  }

  function NameOfLines(lines: seq<string>): string {
    if lines == [] then NotFound
    else if !Contains(LowerStr(lines[0]), "resume") then lines[0]
    else if |lines| > 1 then lines[1]
    else "Unknown"
  }

  /** emails[0], where emails are the distinct matches of the address
      pattern in the order the source's set conversion yields them. */
  function EmailOf(emails: seq<string>): (r: string)
    ensures emails == [] ==> r == NotFound
    ensures emails != [] ==> r in emails
  {
    if emails == [] then NotFound else emails[0]
  }

  /** What analyze_resume(text) returns, given the address matches. */
  function Analysis(text: string, emails: seq<string>): Resume {
    Resume(
      NameOf(text),
      EmailOf(emails),
      Skills.SkillSet(Sections.SectionLines(text, "skills")),
      Education.Educations(Sections.SectionLines(text, "education")),
      Experience.Jobs(Sections.SectionLines(text, "experience")))
  }

  /** Step 2 of analyze_resume: the name from the text's clean lines. */
  method FindName(text: string) returns (name: string)
    ensures name == NameOf(text)
  {
    name := NotFound;
    var lines := CleanLines(text);
    if lines != [] {
      if !Contains(LowerStr(lines[0]), "resume") {
        name := lines[0];
      } else {
        name := if |lines| > 1 then lines[1] else "Unknown";
      }
    }
  }

  /** analyze_resume(text). */
  method AnalyzeResume(text: string, emails: seq<string>) returns (r: Resume)
    ensures r == Analysis(text, emails)
  {
    var email := NotFound;
    if emails != [] {
      email := emails[0];
    }
    var name := FindName(text);
    var rawSkills := Sections.ExtractSection(text, "skills");
    var skills := Skills.ParseSkills(rawSkills);
    var rawEdu := Sections.ExtractSection(text, "education");
    var education := Education.ParseEducation(rawEdu);
    var rawExp := Sections.ExtractSection(text, "experience");
    var experience := Experience.ParseExperience(rawExp);
    r := Resume(name, email, skills, education, experience);
  }

  // ------------------------------------------------------------- properties

  /** The name is the first line, trimmed, when that line does not mention
      "resume". */
  lemma NameIsFirstLine(first: string, rest: string)
    requires '\n' !in first && Strip(first) != []
    requires !Contains(LowerStr(Strip(first)), "resume")
    ensures NameOf(first + "\n" + rest) == Strip(first)
  {
    CleanLinesAppend(first, rest);
    CleanLinesOfLine(first);
  }

  /** A first line that mentions "resume" is taken for the document's
      title, and the name is the next line, trimmed. */
  lemma NameSkipsTitleLine(first: string, second: string, rest: string)
    requires '\n' !in first && '\n' !in second && Strip(first) != [] && Strip(second) != []
    requires Contains(LowerStr(Strip(first)), "resume")
    ensures NameOf(first + "\n" + second + "\n" + rest) == Strip(second)
  {
    var tail := second + "\n" + rest;
    assert first + "\n" + second + "\n" + rest == first + "\n" + tail;
    CleanLinesAppend(first, tail);
    CleanLinesAppend(second, rest);
    CleanLinesOfLine(first);
    CleanLinesOfLine(second);
    TitleLineSkipped(Strip(first), Strip(second), CleanLines(rest));
  }

  lemma TitleLineSkipped(a: string, b: string, r: seq<string>)
    requires Contains(LowerStr(a), "resume")
    ensures NameOfLines([a] + ([b] + r)) == b
  {
    var ls := [a] + ([b] + r);
    assert ls[0] == a && ls[1] == b;
  }

  /** A document whose only line mentions "resume" has the name
      "Unknown". */
  lemma OnlyTitleLineIsUnknown(first: string)
    requires '\n' !in first && Strip(first) != []
    requires Contains(LowerStr(Strip(first)), "resume")
    ensures NameOf(first) == "Unknown"
  {
    CleanLinesOfLine(first);
  }

  /** Blank lines before the name are skipped. */
  lemma LeadingBlankLinesSkipped(blank: string, rest: string)
    requires '\n' !in blank && AllSpace(blank)
    ensures NameOf(blank + "\n" + rest) == NameOf(rest)
  {
    CleanLinesAppend(blank, rest);
    CleanLinesOfBlank(blank);
    assert [] + CleanLines(rest) == CleanLines(rest);
  }

  /** A blank document yields the sentinels and empty collections. */
  lemma BlankDocument(text: string)
    requires AllSpace(text)
    ensures Analysis(text, []) == Resume(NotFound, NotFound, {}, [], [])
  {
    CleanLinesOfBlank(text);
    Sections.BlankTextHasNoSection(text, "skills");
    Sections.BlankTextHasNoSection(text, "education");
    Sections.BlankTextHasNoSection(text, "experience");
    EmptySectionsParseEmpty();
    var r := Analysis(text, []);
    assert r.name == NotFound && r.email == NotFound;
    assert r.skills == {} && r.education == [] && r.experience == [];
  }

  /** The parsers give nothing for a missing section. */
  lemma EmptySectionsParseEmpty()
    ensures Skills.SkillSet([]) == {}
    ensures Education.Educations([]) == []
    ensures Experience.Jobs([]) == []
  {
    assert Skills.Scan("") == Skills.Cut([], "");
    assert Skills.Tokens("") == [] by {
      assert Skills.Words([""]) == Skills.Words([]) + Skills.KeepWord("");
    }
    assert Education.RunFrom(Education.Start, []) == Education.State([], Education.None);
  }
}
