/** The education parser of app.py (parse_education): a line naming a
    degree opens a new entry, and the lines after it fill that entry's
    university, period and location, each at most once, by keyword, digit
    and comma tests. Lines before the first degree line are ignored. */
module Education {
  import opened Text

  datatype Option<T> = None | Some(value: T)

  /** One entry of the result: the four keys of the source's dictionary. */
  datatype Entry = Entry(course: string, university: string, location: string, period: string)

  const DegreeKeywords: seq<string> :=
    ["bachelor", "master", "bsc", "msc", "phd", "diploma", "degree", "certificate", "foundation"]

  const UniversityKeywords: seq<string> :=
    ["university", "college", "institute", "polytechnic", "school", "academy"]

  /** The lowered line mentions a degree keyword. */
  predicate IsDegreeLine(line: string) {
    ContainsAny(LowerStr(line), DegreeKeywords)
  }

  predicate IsUniversityLine(line: string) {
    ContainsAny(LowerStr(line), UniversityKeywords)
  }

  /** The contents each field of an entry can have: the course is a degree
      line, and a filled university, period or location passed its test. */
  predicate Plausible(e: Entry) {
    && IsDegreeLine(e.course)
    && (e.university == "" || IsUniversityLine(e.university))
    && (e.period == "" || HasFourDigits(e.period))
    && (e.location == "" || (Contains(e.location, ",") && !HasDigit(e.location)))
  }

  /** The fields of e are lines of the input (or still empty). */
  predicate DrawnFrom(e: Entry, lines: seq<string>) {
    && e.course in lines
    && (e.university == "" || e.university in lines)
    && (e.period == "" || e.period in lines)
    && (e.location == "" || e.location in lines)
  }

  /** How a line that is not a degree line updates the open entry: the
      first empty field whose test the line passes, tried in the order
      university, period, location, receives the line. */
  function Fill(e: Entry, line: string): (r: Entry)
    ensures r.course == e.course
    ensures e.university != "" ==> r.university == e.university
    ensures e.period != "" ==> r.period == e.period
    ensures e.location != "" ==> r.location == e.location
    ensures r == e || r == e.(university := line) || r == e.(period := line) || r == e.(location := line)
    ensures Plausible(e) ==> Plausible(r)
    ensures IsUniversityLine(line) && e.university == "" ==> r == e.(university := line)
    ensures !(IsUniversityLine(line) && e.university == "") && HasFourDigits(line) && e.period == ""
            ==> r == e.(period := line)
    ensures (&& !(IsUniversityLine(line) && e.university == "")
             && !(HasFourDigits(line) && e.period == "")
             && Contains(line, ",") && !HasDigit(line) && e.location == "")
            ==> r == e.(location := line)
  {
    if IsUniversityLine(line) && e.university == "" then e.(university := line)
    else if HasFourDigits(line) && e.period == "" then e.(period := line)
    else if Contains(line, ",") && !HasDigit(line) && e.location == "" then e.(location := line)
    else e
  }

  /** The loop's state: the entries appended so far and current_edu, which
      is None while it is still the empty dictionary. */
  datatype State = State(done: seq<Entry>, open: Option<Entry>)

  const Start: State := State([], None)

  function Opened(o: Option<Entry>): seq<Entry> {
    if o.Some? then [o.value] else []
  }

  /** The entries of a state as the final `if current_edu` leaves them. */
  function Flush(st: State): seq<Entry> {
    st.done + Opened(st.open)
  }

  /** One iteration of the loop. */
  function Step(st: State, line: string): State {
    if IsDegreeLine(line) then State(Flush(st), Some(Entry(line, "", "", "")))
    else if st.open.Some? then State(st.done, Some(Fill(st.open.value, line)))
    else st
  }

  function RunFrom(st: State, lines: seq<string>): State
    decreases |lines|
  {
    if lines == [] then st else RunFrom(Step(st, lines[0]), lines[1..])
  }

  /** What parse_education(lines) returns. */
  function Educations(lines: seq<string>): seq<Entry> {
    Flush(RunFrom(Start, lines))
  }

  /** parse_education(lines). */
  method ParseEducation(lines: seq<string>) returns (educations: seq<Entry>)
    ensures educations == Educations(lines)
  {
    educations := [];
    var current: Option<Entry> := None;
    var i := 0;
    while i < |lines|
      invariant 0 <= i <= |lines|
      invariant RunFrom(State(educations, current), lines[i..]) == RunFrom(Start, lines)
    {
      var line := lines[i];
      ghost var before := State(educations, current);
      var lower := LowerStr(line);
      var isDegree := ContainsAny(lower, DegreeKeywords);
      if isDegree {
        if current.Some? {
          educations := educations + [current.value];
        }
        current := Some(Entry(line, "", "", ""));
      } else if current.Some? {
        var e := current.value;
        if ContainsAny(lower, UniversityKeywords) && e.university == "" {
          current := Some(e.(university := line));
        } else if HasFourDigits(line) && e.period == "" {
          current := Some(e.(period := line));
        } else if Contains(line, ",") && !HasDigit(line) && e.location == "" {
          current := Some(e.(location := line));
        }
      }
      assert State(educations, current) == Step(before, line);
      assert lines[i..][1..] == lines[i + 1..];
      i := i + 1;
    }
    if current.Some? {
      educations := educations + [current.value];
    }
  }

  // ------------------------------------------------------------- properties

  /** The degree lines of the input, in order. */
  function DegreeLines(lines: seq<string>): (r: seq<string>)
    ensures forall k :: 0 <= k < |r| ==> IsDegreeLine(r[k]) && r[k] in lines
  {
    if lines == [] then []
    else (if IsDegreeLine(lines[0]) then [lines[0]] else []) + DegreeLines(lines[1..])
  }

  function Courses(es: seq<Entry>): (r: seq<string>)
    ensures |r| == |es|
  {
    if es == [] then [] else Courses(es[..|es| - 1]) + [es[|es| - 1].course]
  }

  lemma CoursesSnoc(es: seq<Entry>, e: Entry)
    ensures Courses(es + [e]) == Courses(es) + [e.course]
  {
    assert (es + [e])[..|es|] == es;
  }

  lemma StepCourses(st: State, line: string)
    ensures Courses(Flush(Step(st, line))) == Courses(Flush(st)) + (if IsDegreeLine(line) then [line] else [])
  {
    if IsDegreeLine(line) {
      CoursesSnoc(Flush(st), Entry(line, "", "", ""));
    } else if st.open.Some? {
      CoursesSnoc(st.done, st.open.value);
      CoursesSnoc(st.done, Fill(st.open.value, line));
    }
  }

  lemma {:induction false} RunFromCourses(st: State, lines: seq<string>)
    ensures Courses(Flush(RunFrom(st, lines))) == Courses(Flush(st)) + DegreeLines(lines)
    decreases |lines|
  {
    if lines != [] {
      StepCourses(st, lines[0]);
      RunFromCourses(Step(st, lines[0]), lines[1..]);
    }
  }

  /** There is one entry per degree line, in the order of the lines, and
      its course is that line. */
  lemma EntriesFollowDegreeLines(lines: seq<string>)
    ensures Courses(Educations(lines)) == DegreeLines(lines)
    ensures |Educations(lines)| == |DegreeLines(lines)|
  {
    RunFromCourses(Start, lines);
    assert Flush(Start) == [] && Courses([]) == [];
    assert [] + DegreeLines(lines) == DegreeLines(lines);
  }

  /** Lines before the first degree line open nothing and change nothing. */
  lemma {:induction false} LeadingLinesIgnored(pre: seq<string>, rest: seq<string>)
    requires forall k :: 0 <= k < |pre| ==> !IsDegreeLine(pre[k])
    ensures Educations(pre + rest) == Educations(rest)
  {
    if pre != [] {
      assert (pre + rest)[0] == pre[0];
      assert (pre + rest)[1..] == pre[1..] + rest;
      LeadingLinesIgnored(pre[1..], rest);
    } else {
      assert pre + rest == rest;
    }
  }

  predicate StateOk(st: State, lines: seq<string>) {
    forall e :: e in Flush(st) ==> Plausible(e) && DrawnFrom(e, lines)
  }

  lemma StepOk(st: State, line: string, lines: seq<string>)
    requires StateOk(st, lines) && line in lines
    ensures StateOk(Step(st, line), lines)
  {
    if !IsDegreeLine(line) && st.open.Some? {
      assert st.open.value in Flush(st);
      var e := Fill(st.open.value, line);
      assert Flush(Step(st, line)) == st.done + [e];
    }
  }

  lemma {:induction false} RunFromOk(st: State, rest: seq<string>, lines: seq<string>)
    requires StateOk(st, lines)
    requires forall k :: 0 <= k < |rest| ==> rest[k] in lines
    ensures StateOk(RunFrom(st, rest), lines)
    decreases |rest|
  {
    if rest != [] {
      StepOk(st, rest[0], lines);
      RunFromOk(Step(st, rest[0]), rest[1..], lines);
    }
  }

  /** Every entry's course is a degree line, every filled field passed its
      test, and every field is one of the input lines. */
  lemma EntriesArePlausible(lines: seq<string>)
    ensures forall e :: e in Educations(lines) ==> Plausible(e) && DrawnFrom(e, lines)
  {
    RunFromOk(Start, lines, lines);
  }

  /** The first line of ls that mentions a university keyword, or "". */
  function FirstUniversityLine(ls: seq<string>): (u: string)
    ensures u == "" || (u in ls && IsUniversityLine(u))
  {
    if ls == [] then ""
    else if IsUniversityLine(ls[0]) then ls[0]
    else FirstUniversityLine(ls[1..])
  }

  /** While no degree line arrives, the open entry keeps its course, and
      an empty university becomes the first university line. */
  lemma {:induction false} OpenEntryUniversity(done: seq<Entry>, e: Entry, ls: seq<string>)
    requires forall k :: 0 <= k < |ls| ==> !IsDegreeLine(ls[k])
    ensures RunFrom(State(done, Some(e)), ls).done == done
    ensures RunFrom(State(done, Some(e)), ls).open.Some?
    ensures RunFrom(State(done, Some(e)), ls).open.value.course == e.course
    ensures RunFrom(State(done, Some(e)), ls).open.value.university
            == if e.university != "" then e.university else FirstUniversityLine(ls)
    decreases |ls|
  {
    if ls != [] {
      var e1 := Fill(e, ls[0]);
      assert Step(State(done, Some(e)), ls[0]) == State(done, Some(e1));
      OpenEntryUniversity(done, e1, ls[1..]);
    }
  }

  /** A degree line followed by non-degree lines gives one entry: its
      course is the degree line and its university the first line that
      names a university, or "" when none does. */
  lemma UniversityIsFirstUniversityLine(d: string, ls: seq<string>)
    requires IsDegreeLine(d)
    requires forall k :: 0 <= k < |ls| ==> !IsDegreeLine(ls[k])
    ensures |Educations([d] + ls)| == 1
    ensures Educations([d] + ls)[0].course == d
    ensures Educations([d] + ls)[0].university == FirstUniversityLine(ls)
  {
    var e := Entry(d, "", "", "");
    assert ([d] + ls)[0] == d && ([d] + ls)[1..] == ls;
    assert Step(Start, d) == State([], Some(e));
    assert RunFrom(Start, [d] + ls) == RunFrom(State([], Some(e)), ls);
    OpenEntryUniversity([], e, ls);
  }

  /** A degree line followed by three other lines: one entry, filled by
      each of the three in turn. */
  lemma OneEntryOfFour(ls: seq<string>)
    requires |ls| == 4 && IsDegreeLine(ls[0])
    requires !IsDegreeLine(ls[1]) && !IsDegreeLine(ls[2]) && !IsDegreeLine(ls[3])
    ensures Educations(ls) == [Fill(Fill(Fill(Entry(ls[0], "", "", ""), ls[1]), ls[2]), ls[3])]
  {
    var e0 := Entry(ls[0], "", "", "");
    var e1 := Fill(e0, ls[1]);
    var e2 := Fill(e1, ls[2]);
    var e3 := Fill(e2, ls[3]);
    assert Flush(Start) == [];
    assert ls[1..][1..] == ls[2..] && ls[2..][1..] == ls[3..] && ls[3..][1..] == [];
    assert RunFrom(Start, ls) == RunFrom(State([], Some(e0)), ls[1..]);
    assert RunFrom(State([], Some(e0)), ls[1..]) == RunFrom(State([], Some(e1)), ls[2..]);
    assert RunFrom(State([], Some(e1)), ls[2..]) == RunFrom(State([], Some(e2)), ls[3..]);
    assert RunFrom(State([], Some(e2)), ls[3..]) == State([], Some(e3));
  }

  /** The fields filled in the order university, location, period. */
  lemma FillThree(d: string, u: string, l: string, p: string)
    requires IsUniversityLine(u)
    requires !IsUniversityLine(l) && Contains(l, ",") && !HasDigit(l)
    requires !IsUniversityLine(p) && HasFourDigits(p)
    ensures Fill(Fill(Fill(Entry(d, "", "", ""), u), l), p) == Entry(d, u, l, p)
  {
  }

  /** The shape of a typical entry: a degree line, then a university line,
      a location such as "Kuala Lumpur, Malaysia" and a period such as
      "2018 - 2022" give one entry with all four fields filled. */
  lemma FourLineEntry(d: string, u: string, l: string, p: string)
    requires IsDegreeLine(d)
    requires !IsDegreeLine(u) && IsUniversityLine(u)
    requires !IsDegreeLine(l) && !IsUniversityLine(l) && Contains(l, ",") && !HasDigit(l)
    requires !IsDegreeLine(p) && !IsUniversityLine(p) && HasFourDigits(p)
    ensures Educations([d, u, l, p]) == [Entry(d, u, l, p)]
  {
    OneEntryOfFour([d, u, l, p]);
    FillThree(d, u, l, p);
  }
}
