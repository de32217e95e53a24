/** The experience parser of app.py (parse_experience): the section's lines
    are placed into a job title, a company or the job's content, and a line
    that looks like a title or a date closes the current job once it has
    more than two content lines. Content lines are merged with spaces. */
module Experience {
  import opened Text

  /** One job of the result. */
  datatype Job = Job(title: string, company: string, content: string)

  /** current_job while it is being filled: content is still a list. */
  datatype Draft = Draft(title: string, company: string, content: seq<string>)

  const Blank: Draft := Draft("", "", [])

  const JobTitles: seq<string> :=
    ["manager", "engineer", "developer", "consultant", "analyst", "intern",
     "director", "executive", "assistant", "lead", "specialist", "officer"]

  /** The lowered line contains a job-title keyword (as a substring, so
      "leadership" contains "lead"). */
  predicate IsTitleLine(line: string) {
    ContainsAny(LowerStr(line), JobTitles)
  }

  /** The lowered line matches 20\d\d|19\d\d|present. */
  predicate IsDateLine(line: string) {
    IsDateLike(LowerStr(line))
  }

  predicate IsCompanyLine(line: string) {
    var l := LowerStr(line);
    Contains(l, "company") || Contains(l, "sdn bhd") || Contains(l, "ltd")
  }

  /** A title or date line closes a job that has more than two content lines. */
  predicate StartsBlock(d: Draft, line: string) {
    (IsTitleLine(line) || IsDateLine(line)) && |d.content| > 2
  }

  /** A date line that arrives while the job has neither title nor company,
      and is neither a title nor a company line, is passed over. */
  predicate Ignored(d: Draft, line: string) {
    d.title == "" && d.company == "" && !IsTitleLine(line) && !IsCompanyLine(line) && IsDateLine(line)
  }

  /** Where a line goes in the current job: an empty title takes a title
      line, an empty company a company line, a job with neither takes any
      other non-date line as its title, and everything else is content. */
  function Place(d: Draft, line: string): (r: Draft)
    ensures d.title != "" ==> r.title == d.title
    ensures d.company != "" ==> r.company == d.company
    ensures Ignored(d, line) ==> r == d
    ensures !Ignored(d, line) ==>
              || r == d.(title := line)
              || r == d.(company := line)
              || r == d.(content := d.content + [line])
    ensures r.content != d.content ==> d.title != "" || d.company != ""
  {
    if d.title == "" && IsTitleLine(line) then d.(title := line)
    else if d.company == "" && IsCompanyLine(line) then d.(company := line)
    else if d.title == "" && d.company == "" then (if IsDateLine(line) then d else d.(title := line))
    else d.(content := d.content + [line])
  }

  /** The elif chain of the loop body, branch by branch: an empty title
      takes a title line; failing that, an empty company takes a company
      line; failing both, a job with neither takes any non-date line as its
      title; a job with a title or a company takes the line as content. */
  lemma PlaceChain(d: Draft, line: string)
    ensures d.title == "" && IsTitleLine(line) ==> Place(d, line) == d.(title := line)
    ensures (!(d.title == "" && IsTitleLine(line)) && d.company == "" && IsCompanyLine(line))
            ==> Place(d, line) == d.(company := line)
    ensures (!(d.title == "" && IsTitleLine(line)) && !(d.company == "" && IsCompanyLine(line))
             && d.title == "" && d.company == "" && !IsDateLine(line))
            ==> Place(d, line) == d.(title := line)
    ensures (!(d.title == "" && IsTitleLine(line)) && !(d.company == "" && IsCompanyLine(line))
             && (d.title != "" || d.company != ""))
            ==> Place(d, line) == d.(content := d.content + [line])
  {
  }

  /** The loop's state: the jobs closed so far (before their content is
      merged), the current job, and the date lines passed over. */
  datatype State = State(closed: seq<Draft>, open: Draft, skipped: seq<string>)

  const Start: State := State([], Blank, [])

  /** One iteration of the loop. */
  function Step(st: State, line: string): State {
    var s1 := if StartsBlock(st.open, line) then State(st.closed + [st.open], Blank, st.skipped) else st;
    State(s1.closed, Place(s1.open, line), s1.skipped + (if Ignored(s1.open, line) then [line] else []))
  }

  function RunFrom(st: State, lines: seq<string>): State
    decreases |lines|
  {
    if lines == [] then st else RunFrom(Step(st, lines[0]), lines[1..])
  }

  /** The job as it is appended: the content lines merged with spaces. */
  function Seal(d: Draft): Job {
    Job(d.title, d.company, Join(" ", d.content))
  }

  function SealAll(ds: seq<Draft>): (r: seq<Job>)
    ensures |r| == |ds|
    ensures forall k :: 0 <= k < |ds| ==> r[k] == Seal(ds[k])
  {
    if ds == [] then [] else SealAll(ds[..|ds| - 1]) + [Seal(ds[|ds| - 1])]
  }

  /** The last job is kept only when it has a title or content lines. */
  predicate Kept(d: Draft) {
    d.title != "" || d.content != []
  }

  function Finish(st: State): seq<Draft> {
    st.closed + (if Kept(st.open) then [st.open] else [])
  }

  /** What parse_experience(lines) returns. */
  function Jobs(lines: seq<string>): seq<Job> {
    SealAll(Finish(RunFrom(Start, lines)))
  }

  lemma SealAllSnoc(ds: seq<Draft>, d: Draft)
    ensures SealAll(ds + [d]) == SealAll(ds) + [Seal(d)]
  {
    assert (ds + [d])[..|ds|] == ds;
  }

  /** The field heuristics of the loop body: where the line goes in
      current_job, and whether it is passed over. */
  method FillJob(job: Draft, line: string, lower: string, isTitle: bool, isDate: bool)
    returns (next: Draft, passed: bool)
    requires lower == LowerStr(line) && isTitle == IsTitleLine(line) && isDate == IsDateLine(line)
    ensures next == Place(job, line) && passed == Ignored(job, line)
  {
    next, passed := job, false;
    if job.title == "" && isTitle {
      next := job.(title := line);
    } else if job.company == "" && (Contains(lower, "company") || Contains(lower, "sdn bhd") || Contains(lower, "ltd")) {
      next := job.(company := line);
    } else if job.title == "" && job.company == "" {
      if isDate {
        passed := true;
      } else {
        next := job.(title := line);
      }
    } else {
      next := job.(content := job.content + [line]);
    }
  }

  /** One iteration of the loop at the head of the remaining lines. */
  lemma RunFromHead(st: State, next: State, rest: seq<string>, result: State)
    requires rest != [] && next == Step(st, rest[0]) && RunFrom(st, rest) == result
    ensures RunFrom(next, rest[1..]) == result
  {
  }

  /** One iteration of the loop of parse_experience: the seal, then the
      field heuristics. The closed jobs and the passed-over lines are ghost
      bookkeeping for the proof. */
  method Iteration(jobs: seq<Job>, job: Draft, line: string,
                   ghost closed: seq<Draft>, ghost skipped: seq<string>)
    returns (jobs': seq<Job>, job': Draft, ghost closed': seq<Draft>, ghost skipped': seq<string>)
    requires jobs == SealAll(closed)
    ensures State(closed', job', skipped') == Step(State(closed, job, skipped), line)
    ensures jobs' == SealAll(closed')
  {
    jobs', job', closed', skipped' := jobs, job, closed, skipped;
    var lower := LowerStr(line);
    var isDate := IsDateLike(lower);
    var isTitle := ContainsAny(lower, JobTitles);
    if (isTitle || isDate) && |job'.content| > 2 {
      SealAllSnoc(closed', job');
      jobs' := jobs' + [Job(job'.title, job'.company, Join(" ", job'.content))];
      closed' := closed' + [job'];
      job' := Blank;
    }
    ghost var mid := State(closed', job', skipped');
    assert mid == if StartsBlock(job, line) then State(closed + [job], Blank, skipped) else State(closed, job, skipped);
    var passed;
    job', passed := FillJob(job', line, lower, isTitle, isDate);
    if passed {
      skipped' := skipped' + [line];
    }
    assert State(closed', job', skipped') == State(mid.closed, Place(mid.open, line), mid.skipped + (if Ignored(mid.open, line) then [line] else []));
  }

  /** parse_experience(lines). */
  method ParseExperience(lines: seq<string>) returns (jobs: seq<Job>)
    ensures jobs == Jobs(lines)
  {
    jobs := [];
    var job := Blank;
    ghost var closed: seq<Draft> := [];
    ghost var skipped: seq<string> := [];
    var i := 0;
    while i < |lines|
      invariant 0 <= i <= |lines|
      invariant RunFrom(State(closed, job, skipped), lines[i..]) == RunFrom(Start, lines)
      invariant jobs == SealAll(closed)
    {
      ghost var before := State(closed, job, skipped);
      jobs, job, closed, skipped := Iteration(jobs, job, lines[i], closed, skipped);
      assert lines[i..][1..] == lines[i + 1..];
      RunFromHead(before, State(closed, job, skipped), lines[i..], RunFrom(Start, lines));
      i := i + 1;
    }
    if job.title != "" || job.content != [] {
      SealAllSnoc(closed, job);
      jobs := jobs + [Job(job.title, job.company, Join(" ", job.content))];
    }
  }

  // ------------------------------------------------------------- properties

  /** The lines a draft holds. */
  function DraftLines(d: Draft): multiset<string> {
    (if d.title != "" then multiset{d.title} else multiset{})
    + (if d.company != "" then multiset{d.company} else multiset{})
    + multiset(d.content)
  }

  function ClosedLines(ds: seq<Draft>): multiset<string> {
    if ds == [] then multiset{} else ClosedLines(ds[..|ds| - 1]) + DraftLines(ds[|ds| - 1])
  }

  /** Every line of a state, wherever it was placed or passed over. */
  function StateLines(st: State): multiset<string> {
    ClosedLines(st.closed) + DraftLines(st.open) + multiset(st.skipped)
  }

  lemma ClosedLinesSnoc(ds: seq<Draft>, d: Draft)
    ensures ClosedLines(ds + [d]) == ClosedLines(ds) + DraftLines(d)
  {
    assert (ds + [d])[..|ds|] == ds;
  }

  /** Placing a non-empty line adds it to the job, unless it is passed over. */
  lemma PlaceLines(d: Draft, line: string)
    requires line != ""
    ensures DraftLines(Place(d, line)) + (if Ignored(d, line) then multiset{line} else multiset{})
            == DraftLines(d) + multiset{line}
  {
    var r := Place(d, line);
    if r == d.(content := d.content + [line]) && !Ignored(d, line) {
      assert multiset(r.content) == multiset(d.content) + multiset{line};
    }
  }

  lemma StepLines(st: State, line: string)
    requires line != ""
    ensures StateLines(Step(st, line)) == StateLines(st) + multiset{line}
  {
    var s1 := if StartsBlock(st.open, line) then State(st.closed + [st.open], Blank, st.skipped) else st;
    if StartsBlock(st.open, line) {
      ClosedLinesSnoc(st.closed, st.open);
      assert DraftLines(Blank) == multiset{};
    }
    assert StateLines(s1) == StateLines(st);
    var x: seq<string> := if Ignored(s1.open, line) then [line] else [];
    var r := Step(st, line);
    assert r == State(s1.closed, Place(s1.open, line), s1.skipped + x);
    assert multiset(s1.skipped + x) == multiset(s1.skipped) + multiset(x);
    PlaceLines(s1.open, line);
    var c, d, p, sk, xm := ClosedLines(s1.closed), DraftLines(s1.open), DraftLines(r.open), multiset(s1.skipped), multiset(x);
    assert p + xm == d + multiset{line};
    assert StateLines(r) == c + p + (sk + xm);
    Regroup(c, p, sk, xm, d, multiset{line});
  }

  lemma Regroup(c: multiset<string>, p: multiset<string>, sk: multiset<string>,
                xm: multiset<string>, d: multiset<string>, l: multiset<string>)
    requires p + xm == d + l
    ensures c + p + (sk + xm) == c + d + sk + l
  {
    assert forall z :: (c + p + (sk + xm))[z] == c[z] + (p + xm)[z] + sk[z];
  }

  lemma {:induction false} RunFromLines(st: State, lines: seq<string>)
    requires forall k :: 0 <= k < |lines| ==> lines[k] != ""
    ensures StateLines(RunFrom(st, lines)) == StateLines(st) + multiset(lines)
    decreases |lines|
  {
    if lines != [] {
      var st1 := Step(st, lines[0]);
      var rest := lines[1..];
      assert RunFrom(st, lines) == RunFrom(st1, rest);
      assert lines[0] != "";
      StepLines(st, lines[0]);
      RunFromLines(st1, rest);
      MultisetCons(lines);
      Chain(StateLines(st), StateLines(st1), StateLines(RunFrom(st1, rest)),
            multiset{lines[0]}, multiset(rest), multiset(lines));
    }
  }

  lemma MultisetCons(lines: seq<string>)
    requires lines != []
    ensures multiset(lines) == multiset{lines[0]} + multiset(lines[1..])
  {
    assert lines == [lines[0]] + lines[1..];
  }

  lemma Chain(a: multiset<string>, b: multiset<string>, c: multiset<string>,
              x: multiset<string>, y: multiset<string>, z: multiset<string>)
    requires b == a + x && c == b + y && z == x + y
    ensures c == a + z
  {
  }

  /** No line is lost or duplicated: each non-empty line becomes a title,
      a company or a content line of exactly one draft of the loop state
      (closed or current), or is a passed-over date line. Whether the
      current draft becomes a job is decided by Kept. */
  lemma EveryLineAccounted(lines: seq<string>)
    requires forall k :: 0 <= k < |lines| ==> lines[k] != ""
    ensures StateLines(RunFrom(Start, lines)) == multiset(lines)
  {
    RunFromLines(Start, lines);
    assert StateLines(Start) == multiset{};
  }

  /** The invariants of the loop's state: closed jobs have more than two
      content lines, content lines are input lines, and passed-over lines
      are date lines that are neither title nor company lines. */
  predicate Good(st: State, lines: seq<string>) {
    && (forall d :: d in st.closed ==> |d.content| > 2)
    && (forall d :: d in st.closed + [st.open] ==> forall c :: c in d.content ==> c in lines)
    && (forall x :: x in st.skipped ==> IsDateLine(x) && !IsTitleLine(x) && !IsCompanyLine(x))
  }

  lemma StepGood(st: State, line: string, lines: seq<string>)
    requires Good(st, lines) && line in lines
    ensures Good(Step(st, line), lines)
  {
    var s1 := if StartsBlock(st.open, line) then State(st.closed + [st.open], Blank, st.skipped) else st;
    assert Good(s1, lines) by {
      if StartsBlock(st.open, line) {
        assert st.open in st.closed + [st.open];
        forall d | d in s1.closed + [s1.open] ensures forall c :: c in d.content ==> c in lines {
          if d != Blank {
            assert d in st.closed + [st.open];
          }
        }
      }
    }
    var d := Place(s1.open, line);
    var r := Step(st, line);
    assert r == State(s1.closed, d, s1.skipped + (if Ignored(s1.open, line) then [line] else []));
    forall x | x in d.content ensures x in lines {
      assert s1.open in s1.closed + [s1.open];
      if x !in s1.open.content {
        assert d.content == s1.open.content + [line];
      }
    }
    forall e | e in r.closed + [r.open] ensures forall c :: c in e.content ==> c in lines {
      if e != d {
        assert e in s1.closed + [s1.open];
      }
    }
  }

  lemma {:induction false} RunFromGood(st: State, rest: seq<string>, lines: seq<string>)
    requires Good(st, lines)
    requires forall k :: 0 <= k < |rest| ==> rest[k] in lines
    ensures Good(RunFrom(st, rest), lines)
    decreases |rest|
  {
    if rest != [] {
      StepGood(st, rest[0], lines);
      RunFromGood(Step(st, rest[0]), rest[1..], lines);
    }
  }

  /** Joining at least one non-empty line, or at least two lines, gives a
      non-empty text. */
  lemma {:induction false} JoinNonEmpty(parts: seq<string>)
    requires |parts| >= 2 || (|parts| == 1 && parts[0] != "")
    ensures Join(" ", parts) != ""
  {
    if |parts| >= 2 {
      assert |Join(" ", parts)| >= |parts[0] + " "|;
    }
  }

  /** A closed job, or a kept last job whose content lines are not empty,
      is not blank once sealed. */
  lemma SealNonBlank(d: Draft)
    requires |d.content| > 2 || (Kept(d) && forall c :: c in d.content ==> c != "")
    ensures Seal(d).title != "" || Seal(d).content != ""
  {
    if d.title == "" {
      if |d.content| == 1 {
        assert d.content[0] in d.content;
      }
      JoinNonEmpty(d.content);
    }
  }

  /** Over non-empty lines: no job is blank, every job but the last had
      more than two content lines when it was closed, and every date line
      passed over is neither a title nor a company line. */
  lemma JobsAreNonBlank(lines: seq<string>)
    requires forall k :: 0 <= k < |lines| ==> lines[k] != ""
    ensures forall k :: 0 <= k < |Jobs(lines)| ==> Jobs(lines)[k].title != "" || Jobs(lines)[k].content != ""
    ensures forall d :: d in RunFrom(Start, lines).closed ==> |d.content| > 2
    ensures forall x :: x in RunFrom(Start, lines).skipped ==> IsDateLine(x) && !IsTitleLine(x) && !IsCompanyLine(x)
  {
    assert Good(Start, lines);
    RunFromGood(Start, lines, lines);
    var st := RunFrom(Start, lines);
    var ds := Finish(st);
    forall k | 0 <= k < |ds| ensures Seal(ds[k]).title != "" || Seal(ds[k]).content != "" {
      if k < |st.closed| {
        assert ds[k] in st.closed;
      } else {
        assert ds[k] == st.open && Kept(st.open);
        assert st.open in st.closed + [st.open];
      }
      SealNonBlank(ds[k]);
    }
  }

  /** No line of rest closes the job that starts as d. */
  predicate NoBreak(d: Draft, rest: seq<string>)
    decreases |rest|
  {
    rest == [] || (!StartsBlock(d, rest[0]) && NoBreak(Place(d, rest[0]), rest[1..]))
  }

  /** While no line closes it, a job's title and company, once set, stay
      as they are, and its content only grows at the end. */
  lemma {:induction false} FieldsNeverOverwritten(st: State, rest: seq<string>)
    requires NoBreak(st.open, rest)
    ensures var e := RunFrom(st, rest);
            && e.closed == st.closed
            && (st.open.title != "" ==> e.open.title == st.open.title)
            && (st.open.company != "" ==> e.open.company == st.open.company)
            && |e.open.content| >= |st.open.content|
            && e.open.content[..|st.open.content|] == st.open.content
    decreases |rest|
  {
    if rest != [] {
      var st1 := Step(st, rest[0]);
      assert st1.open == Place(st.open, rest[0]) && st1.closed == st.closed;
      FieldsNeverOverwritten(st1, rest[1..]);
      var c := RunFrom(st1, rest[1..]).open.content;
      assert c[..|st1.open.content|][..|st.open.content|] == c[..|st.open.content|];
    }
  }

  /** A title or date line seals the current job exactly when it holds more
      than two content lines; the line is then placed in a fresh job.
      Otherwise the closed jobs stay as they are and the line goes to the
      current job. */
  lemma StepSeals(st: State, line: string)
    ensures StartsBlock(st.open, line) ==>
              Step(st, line).closed == st.closed + [st.open] && Step(st, line).open == Place(Blank, line)
    ensures !StartsBlock(st.open, line) ==>
              Step(st, line).closed == st.closed && Step(st, line).open == Place(st.open, line)
  {
  }

  /** A line with a job-title keyword is not empty. */
  lemma TitleLineNonEmpty(line: string)
    requires IsTitleLine(line)
    ensures line != ""
  {
    var p :| p in JobTitles && Contains(LowerStr(line), p);
    assert |p| > 0;
  }

  /** A line with no title, date or company keyword. */
  predicate Plain(line: string) {
    !IsTitleLine(line) && !IsDateLine(line) && !IsCompanyLine(line)
  }

  /** A plain line never closes a job and is content of a job with a title. */
  lemma PlainStep(st: State, c: string)
    requires st.open.title != "" && Plain(c)
    ensures Step(st, c) == State(st.closed, st.open.(content := st.open.content + [c]), st.skipped)
  {
  }

  /** The same step at the head of the remaining lines. */
  lemma PlainRun(st: State, c: string, rest: seq<string>)
    requires st.open.title != "" && Plain(c)
    ensures RunFrom(st, [c] + rest)
            == RunFrom(State(st.closed, st.open.(content := st.open.content + [c]), st.skipped), rest)
  {
    PlainStep(st, c);
    assert ([c] + rest)[1..] == rest;
  }

  /** A title line opens the first job. */
  lemma FirstTitleRun(t: string, rest: seq<string>)
    requires IsTitleLine(t)
    ensures RunFrom(Start, [t] + rest) == RunFrom(State([], Draft(t, "", []), []), rest)
  {
    assert ([t] + rest)[1..] == rest;
  }

  /** A title line closes a job with more than two content lines and
      becomes the title of the next one. */
  lemma SealingTitleRun(st: State, t: string)
    requires IsTitleLine(t) && |st.open.content| > 2
    ensures RunFrom(st, [t]) == State(st.closed + [st.open], Draft(t, "", []), st.skipped)
  {
    assert [t][1..] == [];
  }

  /** Every line of cs is plain. */
  predicate AllPlain(cs: seq<string>) {
    forall k :: 0 <= k < |cs| ==> Plain(cs[k])
  }

  /** Plain lines after a job's title are all content of that job: none
      closes it, however many there are. */
  lemma {:induction false} PlainLinesRun(st: State, cs: seq<string>, rest: seq<string>)
    requires st.open.title != ""
    requires AllPlain(cs)
    ensures RunFrom(st, cs + rest)
            == RunFrom(State(st.closed, st.open.(content := st.open.content + cs), st.skipped), rest)
    decreases |cs|
  {
    if cs != [] {
      var st1 := State(st.closed, st.open.(content := st.open.content + [cs[0]]), st.skipped);
      assert cs + rest == [cs[0]] + (cs[1..] + rest);
      PlainRun(st, cs[0], cs[1..] + rest);
      PlainLinesRun(st1, cs[1..], rest);
      assert st1.open.content + cs[1..] == st.open.content + ([cs[0]] + cs[1..]);
      assert [cs[0]] + cs[1..] == cs;
    } else {
      assert cs + rest == rest && st.open.content + cs == st.open.content;
      assert State(st.closed, st.open.(content := st.open.content), st.skipped) == st;
    }
  }

  /** The loop state after a title line, more than two plain lines and
      another title line: the first job is closed and the second is open. */
  lemma TitleAfterContentRun(t: string, cs: seq<string>, t2: string)
    requires IsTitleLine(t) && IsTitleLine(t2) && |cs| > 2
    requires AllPlain(cs)
    ensures RunFrom(Start, [t] + cs + [t2]) == State([Draft(t, "", cs)], Draft(t2, "", []), [])
  {
    assert [t] + cs + [t2] == [t] + (cs + [t2]);
    FirstTitleRun(t, cs + [t2]);
    ContentAfterTitleRun(t, cs, t2);
    SealingTitleRun(State([], Draft(t, "", cs), []), t2);
  }

  /** After the first title line, plain lines become its job's content. */
  lemma ContentAfterTitleRun(t: string, cs: seq<string>, t2: string)
    requires IsTitleLine(t) && AllPlain(cs)
    ensures RunFrom(State([], Draft(t, "", []), []), cs + [t2])
            == RunFrom(State([], Draft(t, "", cs), []), [t2])
  {
    TitleLineNonEmpty(t);
    PlainLinesRun(State([], Draft(t, "", []), []), cs, [t2]);
    assert [] + cs == cs;
  }

  /** A loop that ends with one closed job and a kept current job gives
      both, sealed in order. */
  lemma JobsOfTwoDrafts(ls: seq<string>, first: Draft, last: Draft)
    requires RunFrom(Start, ls) == State([first], last, []) && Kept(last)
    ensures Jobs(ls) == [Seal(first), Seal(last)]
  {
    SealTwo(first, last);
  }

  /** A title line, more than two plain lines and another title line give
      two jobs: the second title line closes the first job, whose lines are
      merged, and opens the second, which holds only its title. */
  lemma TitleAfterContentSeals(t: string, cs: seq<string>, t2: string)
    requires IsTitleLine(t) && IsTitleLine(t2) && |cs| > 2
    requires AllPlain(cs)
    ensures Jobs([t] + cs + [t2]) == [Job(t, "", Join(" ", cs)), Job(t2, "", "")]
  {
    TitleAfterContentRun(t, cs, t2);
    TitleLineNonEmpty(t2);
    JobsOfTwoDrafts([t] + cs + [t2], Draft(t, "", cs), Draft(t2, "", []));
  }

  /** The same with exactly three content lines. */
  lemma TitleAfterThreeLinesSeals(t: string, c1: string, c2: string, c3: string, t2: string)
    requires IsTitleLine(t) && IsTitleLine(t2) && Plain(c1) && Plain(c2) && Plain(c3)
    ensures Jobs([t, c1, c2, c3, t2]) == [Job(t, "", c1 + " " + c2 + " " + c3), Job(t2, "", "")]
  {
    var cs := [c1, c2, c3];
    assert [t, c1, c2, c3, t2] == [t] + cs + [t2];
    TitleAfterContentSeals(t, cs, t2);
    JoinThree(c1, c2, c3);
  }

  lemma JoinThree(a: string, b: string, c: string)
    ensures Join(" ", [a, b, c]) == a + " " + b + " " + c
  {
    assert [a, b, c][1..] == [b, c] && [b, c][1..] == [c];
    assert Join(" ", [b, c]) == b + " " + c;
    assert a + " " + (b + " " + c) == a + " " + b + " " + c;
  }

  /** One closed job and a kept last one give both, sealed in order. */
  lemma SealTwo(first: Draft, last: Draft)
    requires Kept(last)
    ensures SealAll(Finish(State([first], last, []))) == [Seal(first), Seal(last)]
  {
    var ds := Finish(State([first], last, []));
    assert ds == [first, last];
    var r := SealAll(ds);
    assert |r| == 2 && r[0] == Seal(first) && r[1] == Seal(last);
  }

  /** Two consecutive title lines do not make two jobs: the current job has
      no content yet, so the second title line becomes its content. */
  lemma SecondTitleIsContent(t1: string, t2: string)
    requires IsTitleLine(t1) && IsTitleLine(t2) && !IsCompanyLine(t2)
    ensures Jobs([t1, t2]) == [Job(t1, "", t2)]
  {
    TitleLineNonEmpty(t1);
    var s1 := Step(Start, t1);
    assert s1 == State([], Draft(t1, "", []), []);
    var s2 := Step(s1, t2);
    assert s2 == State([], Draft(t1, "", [t2]), []);
    assert RunFrom(s1, [t2]) == RunFrom(s2, []) == s2;
    assert RunFrom(Start, [t1, t2]) == RunFrom(s1, [t2]);
    SealAllSnoc([], Draft(t1, "", [t2]));
  }

  /** A second title line that also names a company becomes the job's
      company, by the second branch of the elif chain. */
  lemma SecondTitleNamingCompany(t1: string, t2: string)
    requires IsTitleLine(t1) && IsTitleLine(t2) && IsCompanyLine(t2)
    ensures Jobs([t1, t2]) == [Job(t1, t2, "")]
  {
    TitleLineNonEmpty(t1);
    var s1 := Step(Start, t1);
    assert s1 == State([], Draft(t1, "", []), []);
    var s2 := Step(s1, t2);
    assert s2 == State([], Draft(t1, t2, []), []);
    assert RunFrom(s1, [t2]) == RunFrom(s2, []) == s2;
    assert RunFrom(Start, [t1, t2]) == RunFrom(s1, [t2]);
    SealAllSnoc([], Draft(t1, t2, []));
  }
}
