# Résumé field extraction, modelled in Dafny

This project models the field-extraction engine in `app.py`. The engine takes the plain text of a résumé and builds the record `{name, email, skills, education, experience}`.

It has four stages, and `analyze_resume` composes them:

- **Section locator** (`extract_section`). It looks up a section's heading synonyms in a fixed table. It finds where the section starts: first a strict search for a word boundary, the keyword, then `:` or a line break; failing that, a lenient substring search. It ends the section at the nearest line that opens with a heading of another section, at least 20 characters past the start. It returns the section's trimmed non-blank lines, dropping the first line when that line names the section.
- **Skill tokenizer** (`parse_skills`). It joins the lines with spaces and walks the characters with a parenthesis counter. It cuts tokens at `,` `•` `·` `|` and line breaks while the counter is 0. It keeps trimmed tokens longer than one character, removes four stop words and de-duplicates.
- **Education segmenter** (`parse_education`). Each line naming a degree opens a new entry. The following lines fill the entry's university, period and location, each at most once.
- **Experience segmenter** (`parse_experience`). Lines are placed into a job's title, company or content. A title or date line closes a job that already has more than two content lines.

## Form

The model follows the source's own form.

- Each loop of the source is a Dafny `method` with a `while` loop:
  - the keyword searches of `extract_section`;
  - the character loop of `parse_skills`;
  - the line loops of `parse_education` and `parse_experience`.
- Most methods are proved equal to a specification function that folds one loop step over the input (`Step` / `RunFrom`, `Scan`, `FirstKeywordMatch`).
- The end search is different. `Sections.FindEnd` is proved equal to `Sections.NextHeading`, which is defined independently of the loops as the least matching text position. Its inner loop, `Sections.ScanSection`, is proved to keep the least match found so far, not to equal a function.
- The properties the source promises are lemmas about those functions.
- The string primitives the source calls are functions in module `Text`. These are `str.lower`, `str.strip`, `str.split`, `str.join`, `in`, and the regular expressions `\d`, `\d{4}` and `20\d\d|19\d\d|present`. The section locator's patterns, with `\b` and `\s*`, are `Sections.MatchesAt`, `Sections.WordBoundary` and `Sections.IsWordChar`.
- Python's mutable dictionaries become datatypes:
  - `Education.Entry`;
  - `Experience.Draft`, the job while its content is still a list;
  - `Experience.Job`;
  - `Analyzer.Resume`.

The modules are `Text`, `Sections`, `Skills`, `Education`, `Experience` and `Analyzer`.

### Behaviour of app.py that the model keeps

- **Section boundary.** The end search begins 20 characters past the section's start (app.py:68), and its pattern needs a line break before the heading. A heading whose line break lies before that point therefore does not end the section (`Sections.EarlyHeadingDoesNotEnd`). In `Skills\nPython, Java\nExperience\n…` the line break before `Experience` is at index 19 and the search starts at index 20, so the skills section runs on past `Experience`.
- **Experience fields.** The experience parser of app.py has title, company and merged content only. It has no duration field, no company-suffix list and no continuation rule.
- **Skills line break.** The skill lines are joined with a space (app.py:88). The text then holds no line break, so the `'\n'` delimiter of the tokenizer never applies (`Skills.JoinedLinesHaveNoBreak`). The delimiter is still part of `Skills.IsDelimiter`, as in the code.
- **Job boundary.** A new job starts only when the current one already holds more than two content lines (app.py:183). Two consecutive title lines therefore give one job, whose content is the second title line, unless that line also names a company, in which case it becomes the company (`Experience.SecondTitleIsContent`, `Experience.SecondTitleNamingCompany`).
- **Final job.** The last job is kept only when it has a title or content (app.py:208). A job holding only a company is dropped (`Experience.Kept`).

## Model

| member | source | states |
|---|---|---|
| Text.LowerStr | app.py:23 | `.lower()` keeps the length and lowers each character, so an index into the lowered text is an index into the original |
| Text.Contains | app.py:79 | definition: Python's `p in s` |
| Text.IsSpace | app.py:75-76 | definition: the whitespace that `strip()` removes and `\s` matches, the characters of Python's `str.isspace()`; also used at app.py:67 and app.py:230 |
| Text.Lower | app.py:23 | definition: one character of `.lower()`, ASCII letters folded to lower case and every other character unchanged |
| Text.ContainsAny | app.py:79 | definition: `any(p in s for p in ps)`, also the test of app.py:135, app.py:147 and app.py:180 |
| Text.HasDigit | app.py:155 | definition: `re.search(r'\d', line)` |
| Text.HasFourDigits | app.py:151 | definition: `re.search(r'\d{4}', line)` |
| Text.IsDateLike | app.py:178 | definition: the date pattern of app.py:178, a year `20\d\d` or `19\d\d`, or the word "present" |
| Text.Join | app.py:88 | definition: `sep.join(parts)` |
| Text.Strip | app.py:75-76 | `strip()` gives a trimmed text, empty exactly when the input is all whitespace, cutting only leading and trailing whitespace |
| Text.StripTrimmed | app.py:76 | stripping an already trimmed line changes nothing |
| Text.Split | app.py:76 | `split('\n')` gives at least one part and no part holds the separator |
| Text.JoinSplit | app.py:76 | joining the parts of a split with the separator gives back the text |
| Text.SplitAppend | app.py:76 | a separator cuts the split exactly where it stands |
| Text.SplitNone | app.py:76 | a text without the separator is a single part |
| Text.KeepLine | app.py:76 | one comprehension step keeps at most one line, trimmed and non-empty |
| Text.StrippedNonBlank | app.py:76 | the comprehension keeps at most as many lines as there are parts, each trimmed and non-empty |
| Text.StrippedNonBlankAppend | app.py:76 | the comprehension distributes over concatenation, so the order of the lines is kept |
| Text.CleanLines | app.py:76 | every kept line is trimmed, non-empty and holds no line break |
| Text.StrippedNonBlankLines | app.py:76 | stripping puts no line break into a part that had none |
| Text.CleanLinesOfLine | app.py:76 | a text without a line break is one trimmed line, or none if blank |
| Text.CleanLinesAppend | app.py:76 | the lines of `a + "\n" + b` are those of `a` followed by those of `b` |
| Text.SplitOfBlank | app.py:76 | every part of a blank text is blank |
| Text.StrippedNonBlankOfBlank | app.py:76 | blank parts are all dropped |
| Text.CleanLinesOfBlank | app.py:230 | a blank text has no lines |
| Sections.Lookup | app.py:38 | `headers.get(name, [])` is empty when no key of the table is the name, and is the keyword list of the first entry whose key is the name otherwise |
| Sections.LookupIsEntry | app.py:26-38 | `headers.get` gives nothing, or the keyword list of an entry whose key is the name |
| Sections.KeywordsOfEachSection | app.py:26-38 | the table's keys are distinct, so each section name gets its own entry's keywords |
| Sections.KeywordsAreWords | app.py:26-34 | every heading keyword of the table is non-empty and starts with a lower-case letter |
| Sections.Keywords | app.py:26-38 | definition: `headers.get(name, [])` on the heading table, which lists each section's synonyms in the source's order |
| Sections.HeaderTable | app.py:26-34 | definition: the seven sections education, experience, skills, projects, references, languages and summary with their heading synonyms, in the source's order |
| Sections.KeywordsOfOthers | app.py:62-65 | definition: the keywords of the first n table entries whose name is not the requested section, in table order |
| Sections.OtherKeywords | app.py:62-65 | definition: every keyword of every section other than the requested one, the headings that can end it |
| Sections.OtherHeadingAt | app.py:66-67 | definition: a line break, optional whitespace and another section's keyword start at the given position, the pattern `\n\s*keyword` |
| Sections.IsWordChar | app.py:42 | definition: the `\w` class, on ASCII letters, digits and `_` |
| Sections.WordBoundary | app.py:42 | definition: `\b` at an index, a word character on exactly one side |
| Sections.MatchesAt | app.py:42-67 | definition of the three patterns: `\b` + keyword + `[:\n]` (app.py:42); plain `find` (app.py:51); line break, whitespace, keyword (app.py:67) |
| Sections.LeastMatch | app.py:42-43 | `re.search` gives the leftmost match at or after the starting index, or -1 when there is none |
| Sections.LineStartInSuffix | app.py:68-70 | searching the text sliced at an offset, then adding the offset back, finds what searching the whole text from that offset finds |
| Sections.FirstKeywordMatch | app.py:40-54 | one start-search pass gives -1 or an index within the text |
| Sections.FirstKeywordNone | app.py:40-54 | a pass gives -1 exactly when no remaining keyword matches anywhere |
| Sections.FirstKeywordWins | app.py:40-54 | the first keyword in list order that matches anywhere wins, at its leftmost match, even when a later keyword matches earlier in the text |
| Sections.FoundIffContains | app.py:50-53 | the lenient `find` succeeds exactly when the keyword occurs |
| Sections.SectionStart | app.py:36-57 | the start is -1 exactly when no keyword of the section occurs in the lowered text; otherwise it is an index into the text |
| Sections.KeywordsOfOthersMembers | app.py:62-64 | a keyword is collected exactly when a table entry other than the section's own has it |
| Sections.OwnHeadingsSkipped | app.py:62-64 | the keywords that can end a section are exactly those of the other entries; its own are skipped |
| Sections.NextHeading | app.py:59-72 | the end is the text's length, or an index at least 20 past the start where a line break, whitespace and another section's keyword begin; no such index lies before it |
| Sections.DropHeading | app.py:78-80 | the first line is removed exactly when it contains one of the section's keywords, and otherwise the lines are unchanged |
| Sections.SectionLines | app.py:19-82 | every returned line is trimmed, non-empty and holds no line break |
| Sections.Locate | app.py:19-82 | the same for the locator given a keyword list |
| Sections.EndSoFarIsNextHeading | app.py:60-72 | when the loops have seen every other keyword, the end they found is the end boundary |
| Sections.EndSoFarStep | app.py:65-72 | considering one more keyword keeps the loop invariant of the end search |
| Sections.SuffixSearch | app.py:67-70 | a match in the sliced text is the least heading match of that keyword in the whole text, 20 or more past the start |
| Sections.SearchKeywords | app.py:40-54 | the keyword loop returns the specified start position of its search mode |
| Sections.ScanSection | app.py:64-72 | the inner keyword loop keeps the least match found so far |
| Sections.FindEnd | app.py:59-72 | the end loops return the end boundary `NextHeading` |
| Sections.FindStart | app.py:36-54 | the strict search, then the lenient search, returns the specified start |
| Sections.TrimSection | app.py:74-80 | slicing, stripping, cleaning and dropping the heading line return the specified lines |
| Sections.ExtractSection | app.py:19-82 | `extract_section` returns exactly `SectionLines(text, name)` |
| Sections.UnknownSectionIsEmpty | app.py:38-57 | a name that is not a key of the table gives no lines |
| Sections.AbsentSectionIsEmpty | app.py:48-57 | when no keyword of the section occurs in the lowered text, no lines are returned |
| Sections.BlankHasNoWord | app.py:51 | a keyword starting with a letter does not occur in whitespace |
| Sections.BlankTextHasNoSection | app.py:48-57 | a text made only of whitespace has no section of any name |
| Sections.EarlyHeadingDoesNotEnd | app.py:59-75 | with no heading of another section at or after start + 20, the section runs to the end of the text, even when such a heading's line break lies before start + 20 |
| Skills.IsDelimiter | app.py:100 | definition: comma, bullet `•`, middle dot `·`, the pipe character and the line break |
| Skills.Delta | app.py:96-97 | definition: `(` raises the parenthesis depth by one, `)` lowers it by one, any other character leaves it |
| Skills.IsStopWord | app.py:115-116 | definition: the lowered word is one of `StopWords`: skills, technologies, include, following |
| Skills.Depth | app.py:96-97 | definition: `paren_depth` after a text, never clamped |
| Skills.Scan | app.py:95-106 | definition: the closed pieces and the open token after the character loop, cutting at a delimiter whose depth, after the character, is 0 |
| Skills.Tokens | app.py:101-112 | definition: `found_skills`, the kept pieces and the last token |
| Skills.DepthAppend | app.py:96-97 | the parenthesis counter is additive over concatenation |
| Skills.DepthWithoutOpen | app.py:96-97 | without `(` the counter never rises above 0, and without either parenthesis it stays 0 |
| Skills.ScanStep | app.py:95-106 | reading one character either closes the open token (a delimiter at depth 0) or appends the character to it |
| Skills.KeepWord | app.py:101-103 | a kept token is trimmed and longer than one character |
| Skills.Words | app.py:101-112 | every collected token is trimmed and longer than one character |
| Skills.WordsSnoc | app.py:108-112 | the last token is added after the others |
| Skills.DropStopWords | app.py:115-116 | a token is kept exactly when it is a token and its lowered form is not a stop word |
| Skills.SetOf | app.py:118 | `set()` holds exactly the members of the list |
| Skills.SetOfSingleton | app.py:118 | the set of a one-element list is that element |
| Skills.SkillSet | app.py:84-118 | a skill is returned exactly when it is a token of the joined lines and not a stop word; no skill is shorter than two characters or untrimmed, and none is duplicated |
| Skills.ScanTokens | app.py:92-112 | the character loop collects exactly `Tokens(text)` |
| Skills.ParseSkills | app.py:84-118 | `parse_skills` returns exactly `SkillSet(lines)` |
| Skills.ScanAtSplit | app.py:99-104 | a delimiter at depth 0 cuts the text there: the pieces before it are closed and scanning goes on from the rest |
| Skills.ScanNoSplit | app.py:99-106 | with no delimiter at depth 0 the whole text is one open token |
| Skills.OpenGroupDepth | app.py:96-97 | inside one open parenthesis the counter is 1 |
| Skills.GroupHasNoSplit | app.py:96-100 | no delimiter in a group `a(b)c` stands at depth 0 |
| Skills.ParenGroupKept | app.py:92-106 | a group `a(b)c` is one token however many delimiters lie inside the parentheses |
| Skills.UnmatchedCloseSuppressesSplits | app.py:96-100 | after an unmatched `)`, with no `(` later, nothing splits and the rest joins the open token |
| Skills.JoinedLinesHaveNoBreak | app.py:88-100 | lines without line breaks joined with spaces hold no line break either, so that delimiter never applies |
| Skills.PlainLineIsOneSkill | app.py:84-118 | a trimmed line without delimiters, longer than one character and not a stop word, is exactly one skill |
| Skills.GroupBalanced | app.py:96-106 | a balanced group `a(b)` ends at depth 0 as one open token |
| Skills.DelimiterAfterToken | app.py:99-106 | a delimiter after such a group closes it, and a plain text after it stays open |
| Skills.TwoWords | app.py:101-112 | two pieces give their kept tokens in order |
| Skills.TwoSkills | app.py:84-118 | a group, a comma and a plain token give exactly the two trimmed skills |
| Skills.GroupThenSkill | app.py:84-118 | the general form of `"Microsoft (Excel, Word), Python"`, which gives exactly `{"Microsoft (Excel, Word)", "Python"}` |
| Skills.KeptPair | app.py:115-118 | two tokens that are not stop words both survive into the set |
| Education.Fill | app.py:143-156 | the course is never changed and a filled field is never overwritten; the line goes to the university if it names a university and that field is empty, else to the period if it has four digits and that field is empty, else to the location if it has a comma and no digit and that field is empty; every filled field passed its test |
| Education.Step | app.py:132-156 | definition of one iteration: a degree line seals the open entry and opens one with that course; another line fills the open entry |
| Education.IsDegreeLine | app.py:128-135 | definition: the lowered line contains one of the degree keywords bachelor, master, bsc, msc, phd, diploma, degree, certificate, foundation |
| Education.IsUniversityLine | app.py:129 | definition: the lowered line contains one of the university keywords university, college, institute, polytechnic, school, academy, the test of app.py:147 |
| Education.Flush | app.py:158-159 | definition: the finished entries followed by the open entry when there is one, as the final `if current_edu` appends it and a new degree line does at app.py:139-140 |
| Education.RunFrom | app.py:131-156 | definition: the iterations over the lines in order |
| Education.Educations | app.py:120-161 | definition: the entries after the loop and the final `if current_edu` |
| Education.ParseEducation | app.py:120-161 | `parse_education` returns exactly `Educations(lines)` |
| Education.DegreeLines | app.py:135 | the degree lines of the input |
| Education.Courses | app.py:141 | one course per entry |
| Education.CoursesSnoc | app.py:140 | appending an entry appends its course |
| Education.StepCourses | app.py:131-156 | a degree line adds one course, and any other line adds none |
| Education.RunFromCourses | app.py:131-159 | the courses after the loop are the earlier ones followed by the degree lines of the rest |
| Education.EntriesFollowDegreeLines | app.py:131-161 | there is exactly one entry per degree line, in input order, and its course is that line |
| Education.LeadingLinesIgnored | app.py:138-143 | lines before the first degree line change nothing |
| Education.StepOk | app.py:131-156 | one line keeps every entry plausible |
| Education.RunFromOk | app.py:131-159 | the loop keeps every entry plausible |
| Education.FirstUniversityLine | app.py:147-148 | the first line naming a university, or "" |
| Education.OpenEntryUniversity | app.py:131-156 | while no degree line arrives, the open entry keeps its course and an empty university becomes the first university line |
| Education.UniversityIsFirstUniversityLine | app.py:131-161 | a degree line followed by non-degree lines gives one entry with that course, whose university is the first line naming a university, or "" |
| Education.OneEntryOfFour | app.py:131-161 | a degree line and three other lines give one entry filled by each of them in turn |
| Education.FillThree | app.py:147-156 | a university line, a location line and a period line fill the three fields, in that order of arrival |
| Education.FourLineEntry | app.py:120-161 | degree, university, location ("Kuala Lumpur, Malaysia") and period ("2018 - 2022") lines give exactly one entry with all four fields |
| Education.EntriesArePlausible | app.py:141-159 | every entry's course is a degree line; a filled university contains a university keyword, a filled period four digits, a filled location a comma and no digit; every field is an input line |
| Experience.IsTitleLine | app.py:180 | definition: the lowered line contains one of the twelve titles as a substring |
| Experience.IsDateLine | app.py:178 | definition: the lowered line holds a year `20\d\d` or `19\d\d`, or the word "present" |
| Experience.IsCompanyLine | app.py:192 | definition: the lowered line contains "company", "sdn bhd" or "ltd" |
| Experience.Place | app.py:189-205 | title and company are never overwritten; a passed-over date line changes nothing; otherwise the line goes to exactly one of title, company or content, and to content only once a title or company exists; which branch takes the line is stated by `Experience.PlaceChain` |
| Experience.PlaceChain | app.py:189-205 | the elif chain branch by branch: an empty title takes a title line; failing that, an empty company takes a company line; failing both, a job with neither title nor company takes any non-date line as its title; a job with a title or company takes the line as content |
| Experience.Step | app.py:175-205 | definition of one iteration: the seal at app.py:183, then `Place` |
| Experience.RunFrom | app.py:174-205 | definition: the iterations over the lines in order |
| Experience.Seal | app.py:185 | definition: a job's content lines merged with single spaces |
| Experience.Kept | app.py:208 | definition: the last job is kept when it has a title or content |
| Experience.StartsBlock | app.py:183 | definition: a title or date line arriving when the job has more than two content lines closes it |
| Experience.Ignored | app.py:194-199 | definition: a date line that is neither a title nor a company line, arriving while the job has neither title nor company, is passed over |
| Experience.Finish | app.py:208-210 | definition: the closed drafts followed by the current one when it is kept |
| Experience.Jobs | app.py:163-212 | definition: the sealed closed jobs, then the last job if kept |
| Experience.SealAll | app.py:185-209 | each job is its draft with the content lines joined by single spaces |
| Experience.SealAllSnoc | app.py:186 | appending a sealed draft appends one job |
| Experience.FillJob | app.py:189-205 | the field heuristics of the loop body place the line as `Place` does, and report exactly the passed-over lines |
| Experience.Iteration | app.py:174-205 | one pass of the loop body (the seal at app.py:183, then the field heuristics) gives exactly the next loop state `Step`, and the jobs appended so far are the sealed closed drafts |
| Experience.ParseExperience | app.py:163-212 | `parse_experience` returns exactly `Jobs(lines)` |
| Experience.ClosedLinesSnoc | app.py:186 | the lines of the closed jobs grow by the closed job's lines |
| Experience.PlaceLines | app.py:189-205 | over non-empty lines, which is what the locator returns: placing a line adds it to the job exactly once, or once to the passed-over lines |
| Experience.StepLines | app.py:174-205 | over non-empty lines, which is what the locator returns: one iteration adds its line exactly once to the state's lines |
| Experience.RunFromLines | app.py:174-205 | over non-empty lines, which is what the locator returns: the loop adds each remaining line exactly once |
| Experience.EveryLineAccounted | app.py:174-205 | over non-empty lines, which is what the locator returns: after the loop, each non-empty input line is the title, company or a content line of exactly one draft of the loop state (closed or current), or is a passed-over date line; none is lost or duplicated. Whether the current draft becomes a job is decided afterwards by `Kept` |
| Experience.StepGood | app.py:183-205 | one iteration keeps the state invariant |
| Experience.RunFromGood | app.py:174-205 | the loop keeps the state invariant |
| Experience.JoinNonEmpty | app.py:185 | joining two or more lines, or one non-empty line, is not empty |
| Experience.SealNonBlank | app.py:183-210 | over non-empty lines, which is what the locator returns: a closed draft (more than two content lines), or a kept last draft whose content lines are all non-empty, seals to a job with a title or non-empty content |
| Experience.JobsAreNonBlank | app.py:183-211 | over non-empty lines, which is what the locator returns: every emitted job has a title or content; every job closed before the last had more than two content lines; every passed-over line is a date line that is neither title nor company |
| Experience.FieldsNeverOverwritten | app.py:189-205 | while no line closes the job, its title and company once set stay, and its content only grows at the end |
| Experience.StepSeals | app.py:182-189 | a title or date line arriving when the job holds more than two content lines closes that job, and the line is placed in a fresh job; any other line leaves the closed jobs unchanged and is placed in the current job |
| Experience.PlainLinesRun | app.py:174-205 | lines with no title, date or company keyword after a job's title are all appended to its content, however many there are |
| Experience.TitleAfterContentRun | app.py:174-205 | a title line, more than two plain lines and another title line leave one closed job and open a second with that title |
| Experience.TitleAfterContentSeals | app.py:163-212 | a title line, more than two plain lines and another title line give exactly two jobs: the first with its lines merged by single spaces, the second with only its title |
| Experience.TitleAfterThreeLinesSeals | app.py:163-212 | the same with three content lines, merged as `c1 c2 c3` |
| Experience.SecondTitleIsContent | app.py:183-205 | two consecutive title lines, the second naming no company, give one job whose content is the second line, because the job has no content lines yet when the second arrives |
| Experience.SecondTitleNamingCompany | app.py:183-205 | two consecutive title lines, the second also naming a company, give one job whose company is the second line and whose content is empty |
| Analyzer.NameOf | app.py:229-235 | definition: the name rule on the clean lines of the text |
| Analyzer.NameOfLines | app.py:231-235 | definition: "Not Found" with no line, the first line unless it mentions "resume", otherwise the second, or "Unknown" when there is none |
| Analyzer.Analysis | app.py:214-249 | definition: the record of name, e-mail and the three parsed sections |
| Analyzer.EmailOf | app.py:224-227 | "Not Found" when there is no match, otherwise one of the matches |
| Analyzer.FindName | app.py:229-235 | the name step returns `NameOf(text)` |
| Analyzer.AnalyzeResume | app.py:214-249 | `analyze_resume` returns the name, the e-mail and the three parsed sections as `Analysis` specifies |
| Analyzer.NameIsFirstLine | app.py:230-233 | a first line that does not mention "resume" is the name, trimmed |
| Analyzer.NameSkipsTitleLine | app.py:232-235 | a first line mentioning "resume" is passed over and the second line, trimmed, is the name |
| Analyzer.TitleLineSkipped | app.py:234-235 | the same on the list of lines |
| Analyzer.OnlyTitleLineIsUnknown | app.py:232-235 | a document whose only line mentions "resume" gets the name "Unknown" |
| Analyzer.LeadingBlankLinesSkipped | app.py:230 | blank lines before the name are skipped |
| Analyzer.BlankDocument | app.py:214-249 | a blank text, given no address matches, gives "Not Found" for name and e-mail and empty skills, education and experience |
| Analyzer.EmptySectionsParseEmpty | app.py:84-212 | each parser gives nothing for a missing section |

## Left out

- The e-mail regular expression (app.py:224-225). `re.findall` and its greedy matching are not modelled. The matches are a parameter `emails` of `Analyzer.AnalyzeResume`, in the order `list(set(...))` yields them. That order is arbitrary, so the model states only that the e-mail is "Not Found" when there is no match and otherwise one of the matches.
- Skills.SkillSet: `parse_skills` returns `list(set(...))`, a list in arbitrary order. The model returns the set, so it says nothing about that order.
- Character classes are ASCII only:
  - `.lower()` folds only `A`–`Z`;
  - `\w` is letters, digits and `_`;
  - `\d` is `0`–`9`.

  Python's Unicode-wide versions of these are not modelled. Whitespace, for `strip()` and `\s`, is the full set of `str.isspace()`.
- The PDF reader (`extract_text_from_pdf`, app.py:12-17). It is foreign binary parsing; the model takes the text as input.
- The Flask routes, file saving and removal, `render_template`, and the `chat` endpoint (app.py:251-295). These are HTTP and filesystem work with no parsing logic.
- The browser script under `static/`. It is user-interface and network code.
