/** The section locator of app.py (extract_section): find where a named
    section starts, where the next heading of another section ends it, and
    return the section's non-blank lines without its heading line. */
module Sections {
  import opened Text

  /** The heading table: each section's name with its heading synonyms,
      in the table's order. */
  const HeaderTable: seq<(string, seq<string>)> := [
    ("education", ["education", "academic background", "academic history", "qualifications",
                   "education & qualifications"]),
    ("experience", ["experience", "work history", "employment", "work experience",
                    "professional experience", "career history", "career summary"]),
    ("skills", ["skills", "technologies", "technical skills", "core competencies",
                "technical proficiency", "software", "expertise"]),
    ("projects", ["projects", "personal projects", "academic projects"]),
    ("references", ["references", "referees"]),
    ("languages", ["languages"]),
    ("summary", ["summary", "profile", "objective", "about me"])
  ]

  /** dict.get(name, []) on a table of (key, keywords) entries. */
  function Lookup(table: seq<(string, seq<string>)>, name: string): (kws: seq<string>)
    ensures (forall j :: 0 <= j < |table| ==> table[j].0 != name) ==> kws == []
    ensures forall j :: 0 <= j < |table| && table[j].0 == name && (forall i :: 0 <= i < j ==> table[i].0 != name)
                        ==> kws == table[j].1
  {
    if table == [] then []
    else if table[0].0 == name then table[0].1
    else Lookup(table[1..], name)
  }

  /** headers.get(name, []): the heading synonyms of a section. */
  function Keywords(name: string): seq<string> {
    Lookup(HeaderTable, name)
  }

  /** The regular-expression class \w, on ASCII. */
  predicate IsWordChar(c: char) {
    'a' <= c <= 'z' || 'A' <= c <= 'Z' || IsDigit(c) || c == '_'
  }

  /** The regular-expression anchor \b at index p: a word character on
      exactly one side. */
  predicate WordBoundary(t: string, p: int)
    requires 0 <= p <= |t|
  {
    (p > 0 && IsWordChar(t[p - 1])) != (p < |t| && IsWordChar(t[p]))
  }

  /** The three searches the locator makes for a keyword kw. */
  datatype Mode =
    | Strict     // re.search(r'\b' + kw + r'[:\n]'): a heading followed by a colon or a line break
    | Plain      // str.find(kw): the lenient fallback
    | LineStart  // re.search(r'\n\s*' + kw): a heading at the start of a line

  /** The search for kw in the given mode matches t at index p (the index
      the match object's start() reports). */
  predicate MatchesAt(t: string, p: int, mode: Mode, kw: string) {
    match mode
    case Strict =>
      && StartsAt(t, p, kw) && p + |kw| < |t|
      && (t[p + |kw|] == ':' || t[p + |kw|] == '\n')
      && WordBoundary(t, p)
    case Plain => StartsAt(t, p, kw)
    case LineStart =>
      && 0 <= p < |t| && t[p] == '\n'
      && exists q | p < q <= |t| :: AllSpace(t[p + 1..q]) && StartsAt(t, q, kw)
  }

  /** The leftmost match at or after index from, or -1 when there is none:
      what re.search and str.find return. */
  function LeastMatch(t: string, mode: Mode, kw: string, from: nat): (i: int)
    ensures i == -1 || from <= i <= |t|
    ensures i >= 0 ==> MatchesAt(t, i, mode, kw)
    ensures forall q :: from <= q <= |t| && (i < 0 || q < i) ==> !MatchesAt(t, q, mode, kw)
    decreases |t| + 1 - from
  {
    if from > |t| then -1
    else if MatchesAt(t, from, mode, kw) then from
    else LeastMatch(t, mode, kw, from + 1)
  }

  /** Searching a suffix of t finds what searching t itself finds from the
      suffix's first index on: the line-start pattern only looks forward. */
  lemma LineStartInSuffix(t: string, d: nat, r: int, kw: string)
    requires d <= |t| && 0 <= r
    ensures MatchesAt(t[d..], r, LineStart, kw) <==> MatchesAt(t, d + r, LineStart, kw)
  {
    var u := t[d..];
    if MatchesAt(u, r, LineStart, kw) {
      var q :| r < q <= |u| && AllSpace(u[r + 1..q]) && StartsAt(u, q, kw);
      assert u[r + 1..q] == t[d + r + 1..d + q];
      assert u[q..q + |kw|] == t[d + q..d + q + |kw|];
      assert d + r < d + q <= |t| && AllSpace(t[d + r + 1..d + q]) && StartsAt(t, d + q, kw);
    }
    if MatchesAt(t, d + r, LineStart, kw) {
      var q :| d + r < q <= |t| && AllSpace(t[d + r + 1..q]) && StartsAt(t, q, kw);
      assert u[r + 1..q - d] == t[d + r + 1..q];
      assert u[q - d..q - d + |kw|] == t[q..q + |kw|];
      assert r < q - d <= |u| && AllSpace(u[r + 1..q - d]) && StartsAt(u, q - d, kw);
    }
  }

  /** The start search of one mode: the keywords are tried in list order
      from index k, and the first keyword that matches anywhere decides,
      with its leftmost match. -1 when no keyword matches. */
  function FirstKeywordMatch(t: string, mode: Mode, kws: seq<string>, k: nat): (i: int)
    ensures -1 <= i <= |t|
    decreases |kws| - k
  {
    if k >= |kws| then -1
    else
      var m := LeastMatch(t, mode, kws[k], 0);
      if m >= 0 then m else FirstKeywordMatch(t, mode, kws, k + 1)
  }

  /** The pattern for kw matches nowhere in t. */
  predicate NoMatch(t: string, mode: Mode, kw: string) {
    forall q :: 0 <= q <= |t| ==> !MatchesAt(t, q, mode, kw)
  }

  /** i is the leftmost match of the pattern for kw. */
  predicate IsLeftmost(t: string, i: int, mode: Mode, kw: string) {
    MatchesAt(t, i, mode, kw) && forall q :: 0 <= q < i ==> !MatchesAt(t, q, mode, kw)
  }

  /** -1 exactly when no keyword from index k on matches anywhere. */
  lemma {:induction false} FirstKeywordNone(t: string, mode: Mode, kws: seq<string>, k: nat)
    ensures FirstKeywordMatch(t, mode, kws, k) == -1 <==> forall j :: k <= j < |kws| ==> NoMatch(t, mode, kws[j])
    decreases |kws| - k
  {
    if k < |kws| {
      FirstKeywordNone(t, mode, kws, k + 1);
      if LeastMatch(t, mode, kws[k], 0) >= 0 {
        assert !NoMatch(t, mode, kws[k]);
      }
    }
  }

  /** The first KEYWORD in list order that matches anywhere wins, with its
      leftmost match; this need not be the leftmost match of all keywords. */
  lemma {:induction false} FirstKeywordWins(t: string, mode: Mode, kws: seq<string>, k: nat)
    ensures var i := FirstKeywordMatch(t, mode, kws, k);
      i >= 0 ==> exists j :: k <= j < |kws| && IsLeftmost(t, i, mode, kws[j])
                             && forall j' :: k <= j' < j ==> NoMatch(t, mode, kws[j'])
    decreases |kws| - k
  {
    var i := FirstKeywordMatch(t, mode, kws, k);
    if k < |kws| && i >= 0 {
      var m := LeastMatch(t, mode, kws[k], 0);
      if m >= 0 {
        assert IsLeftmost(t, i, mode, kws[k]);
      } else {
        FirstKeywordWins(t, mode, kws, k + 1);
        var j :| k + 1 <= j < |kws| && IsLeftmost(t, i, mode, kws[j])
                 && forall j' :: k + 1 <= j' < j ==> NoMatch(t, mode, kws[j']);
        assert NoMatch(t, mode, kws[k]);
        assert forall j' :: k <= j' < j ==> NoMatch(t, mode, kws[j']);
      }
    }
  }

  /** The lenient search finds a keyword exactly when it occurs. */
  lemma FoundIffContains(t: string, kw: string)
    ensures LeastMatch(t, Plain, kw, 0) >= 0 <==> Contains(t, kw)
  {
    if Contains(t, kw) {
      var q :| 0 <= q <= |t| - |kw| && StartsAt(t, q, kw);
      assert MatchesAt(t, q, Plain, kw);
    }
  }

  /** Where the section with keywords kws starts in the lowered text t: the
      strict search, else the lenient one; -1 exactly when no keyword occurs
      in t at all. */
  function SectionStart(t: string, kws: seq<string>): (s: int)
    ensures s == -1 <==> forall j :: 0 <= j < |kws| ==> !Contains(t, kws[j])
    ensures s >= 0 ==> s <= |t|
  {
    var i := FirstKeywordMatch(t, Strict, kws, 0);
    var s := if i >= 0 then i else FirstKeywordMatch(t, Plain, kws, 0);
    assert s == -1 ==> forall j :: 0 <= j < |kws| ==> !Contains(t, kws[j]) by {
      if s == -1 {
        FirstKeywordNone(t, Plain, kws, 0);
        forall j | 0 <= j < |kws| ensures !Contains(t, kws[j]) {
          FoundIffContains(t, kws[j]);
        }
      }
    }
    assert s >= 0 ==> exists j :: 0 <= j < |kws| && Contains(t, kws[j]) by {
      if s >= 0 {
        var mode := if i >= 0 then Strict else Plain;
        FirstKeywordWins(t, mode, kws, 0);
        var j :| 0 <= j < |kws| && IsLeftmost(t, s, mode, kws[j]);
        assert StartsAt(t, s, kws[j]);
      }
    }
    s
  }

  /** The keywords of the entries among the first n of the table whose
      key is not name, in table order. */
  function KeywordsOfOthers(name: string, n: nat): (kws: seq<string>)
    requires n <= |HeaderTable|
  {
    if n == 0 then []
    else KeywordsOfOthers(name, n - 1)
         + (if HeaderTable[n - 1].0 != name then HeaderTable[n - 1].1 else [])
  }

  /** A keyword is collected exactly when an entry other than name's has it. */
  lemma {:induction false} KeywordsOfOthersMembers(name: string, n: nat)
    requires n <= |HeaderTable|
    ensures forall kw :: kw in KeywordsOfOthers(name, n) <==>
      exists j :: 0 <= j < n && HeaderTable[j].0 != name && kw in HeaderTable[j].1
  {
    if n > 0 {
      KeywordsOfOthersMembers(name, n - 1);
    }
  }

  /** Every keyword of every other section: the ones that can end a section. */
  function OtherKeywords(name: string): seq<string> {
    KeywordsOfOthers(name, |HeaderTable|)
  }

  /** A heading of a section other than name starts the line that the line
      break at index p opens. */
  predicate OtherHeadingAt(t: string, p: int, name: string) {
    exists kw :: kw in OtherKeywords(name) && MatchesAt(t, p, LineStart, kw)
  }

  /** The end boundary: the least index at or after p at which a line break,
      optional whitespace and a keyword of another section begin, or the
      end of the text when there is none. */
  function NextHeading(t: string, p: nat, name: string): (e: nat)
    ensures e <= |t|
    ensures e == |t| || (p <= e && OtherHeadingAt(t, e, name))
    ensures forall q :: p <= q < e ==> !OtherHeadingAt(t, q, name)
    decreases |t| - p
  {
    if p >= |t| then |t|
    else if OtherHeadingAt(t, p, name) then p
    else NextHeading(t, p + 1, name)
  }

  /** lines.pop(0) when the first line names the section. */
  function DropHeading(lines: seq<string>, kws: seq<string>): (r: seq<string>)
    ensures r == lines || (lines != [] && r == lines[1..] && ContainsAny(LowerStr(lines[0]), kws))
    ensures lines != [] && ContainsAny(LowerStr(lines[0]), kws) ==> r == lines[1..]
  {
    if lines != [] && ContainsAny(LowerStr(lines[0]), kws) then lines[1..] else lines
  }

  /** What extract_section(text, name) returns. */
  function SectionLines(text: string, name: string): (lines: seq<string>)
    ensures forall k :: 0 <= k < |lines| ==> lines[k] != [] && IsTrimmed(lines[k]) && '\n' !in lines[k]
  {
    Locate(text, Keywords(name), name)
  }

  /** The locator for a section called name whose keywords are kws. */
  function Locate(text: string, kws: seq<string>, name: string): (lines: seq<string>)
    ensures forall k :: 0 <= k < |lines| ==> lines[k] != [] && IsTrimmed(lines[k]) && '\n' !in lines[k]
  {
    var t := LowerStr(text);
    var s := SectionStart(t, kws);
    if s < 0 then []
    else
      var e := NextHeading(t, s + 20, name);
      DropHeading(CleanLines(Strip(text[s..e])), kws)
  }

  /** The end found so far: end is the text's end or a match of one of kws
      at least 20 past start, and no keyword of kws matches between there
      and end. */
  ghost predicate EndSoFar(t: string, start: nat, end: nat, kws: seq<string>) {
    && (end == |t| || (start + 20 <= end < |t| && exists kw :: kw in kws && MatchesAt(t, end, LineStart, kw)))
    && forall kw, q :: kw in kws && start + 20 <= q < end ==> !MatchesAt(t, q, LineStart, kw)
  }

  lemma EndSoFarIsNextHeading(t: string, start: nat, end: nat, name: string)
    requires EndSoFar(t, start, end, OtherKeywords(name))
    ensures end == NextHeading(t, start + 20, name)
  {
    var e := NextHeading(t, start + 20, name);
    if end < e {
      assert OtherHeadingAt(t, end, name);
    }
  }

  /** One start-search loop of extract_section: the keywords in list
      order, stopping at the first that matches. */
  method SearchKeywords(t: string, mode: Mode, kws: seq<string>) returns (start: int)
    ensures start == FirstKeywordMatch(t, mode, kws, 0)
  {
    start := -1;
    var k := 0;
    while k < |kws|
      invariant 0 <= k <= |kws|
      invariant FirstKeywordMatch(t, mode, kws, 0) == FirstKeywordMatch(t, mode, kws, k)
    {
      var m := LeastMatch(t, mode, kws[k], 0);
      if m >= 0 {
        start := m;
        break;
      }
      k := k + 1;
    }
  }

  /** The inner end-boundary loop of extract_section: each keyword of one
      other section is searched for in rest, the text 20 characters past
      start, and a nearer match moves the end. */
  method ScanSection(t: string, start: nat, rest: string, kws: seq<string>, ghost done: seq<string>, end0: nat)
    returns (end: nat)
    requires rest == if start + 20 <= |t| then t[start + 20..] else ""
    requires EndSoFar(t, start, end0, done)
    ensures EndSoFar(t, start, end, done + kws)
  {
    end := end0;
    var k := 0;
    while k < |kws|
      invariant 0 <= k <= |kws|
      invariant EndSoFar(t, start, end, done + kws[..k])
    {
      var m := LeastMatch(rest, LineStart, kws[k], 0);
      assert done + kws[..k + 1] == done + kws[..k] + [kws[k]];
      EndSoFarStep(t, start, end, done + kws[..k], kws[k], rest, m);
      if m >= 0 {
        var realIdx := start + 20 + m;
        if realIdx < end {
          end := realIdx;
        }
      }
      k := k + 1;
    }
    assert kws[..k] == kws;
  }

  /** The end-boundary loops of extract_section: every keyword of every
      other section is searched for, and the nearest match wins. */
  method FindEnd(t: string, start: nat, name: string) returns (end: nat)
    ensures end == NextHeading(t, start + 20, name)
  {
    end := |t|;
    var rest := if start + 20 <= |t| then t[start + 20..] else "";
    var j := 0;
    while j < |HeaderTable|
      invariant 0 <= j <= |HeaderTable|
      invariant EndSoFar(t, start, end, KeywordsOfOthers(name, j))
    {
      var (key, keywords) := HeaderTable[j];
      if key != name {
        end := ScanSection(t, start, rest, keywords, KeywordsOfOthers(name, j), end);
      }
      j := j + 1;
    }
    EndSoFarIsNextHeading(t, start, end, name);
  }

  /** The start search of extract_section: the strict search first, the
      lenient one when it finds nothing. */
  method FindStart(t: string, kws: seq<string>) returns (start: int)
    ensures start == SectionStart(t, kws)
  {
    start := SearchKeywords(t, Strict, kws);
    if start == -1 {
      start := SearchKeywords(t, Plain, kws);
    }
  }

  /** The last stage of extract_section: slice, strip, split into clean
      lines, and drop the heading line. */
  method TrimSection(text: string, kws: seq<string>, start: nat, end: nat) returns (lines: seq<string>)
    requires start <= end <= |text|
    ensures lines == DropHeading(CleanLines(Strip(text[start..end])), kws)
  {
    var raw := Strip(text[start..end]);
    lines := CleanLines(raw);
    if |lines| > 0 && ContainsAny(LowerStr(lines[0]), kws) {
      lines := lines[1..];
    }
  }

  /** extract_section(text, section_name). */
  method ExtractSection(text: string, name: string) returns (lines: seq<string>)
    ensures lines == SectionLines(text, name)
  {
    var t := LowerStr(text);
    var kws := Keywords(name);
    var start := FindStart(t, kws);
    if start == -1 {
      return [];
    }
    var end := FindEnd(t, start, name);
    lines := TrimSection(text, kws, start, end);
  }

  /** One keyword searched: the end found so far moves to the keyword's
      first match past start + 20 when that is nearer. */
  lemma EndSoFarStep(t: string, start: nat, end: nat, ks: seq<string>, kw: string, rest: string, m: int)
    requires rest == if start + 20 <= |t| then t[start + 20..] else ""
    requires m == LeastMatch(rest, LineStart, kw, 0)
    requires EndSoFar(t, start, end, ks)
    ensures EndSoFar(t, start, if m >= 0 && start + 20 + m < end then start + 20 + m else end, ks + [kw])
  {
    SuffixSearch(t, start, rest, kw, m);
    var e := if m >= 0 && start + 20 + m < end then start + 20 + m else end;
    var all := ks + [kw];
    assert kw in all;
    if e != |t| {
      if e == start + 20 + m {
        assert MatchesAt(t, e, LineStart, kw);
      } else {
        var kw0 :| kw0 in ks && MatchesAt(t, end, LineStart, kw0);
        assert kw0 in all;
      }
    }
    forall k, q | k in all && start + 20 <= q < e ensures !MatchesAt(t, q, LineStart, k) {
      if k != kw {
        assert k in ks;
      }
    }
  }

  /** What searching the rest of the text 20 characters past start tells
      about matches in the whole text. */
  lemma SuffixSearch(t: string, start: nat, rest: string, kw: string, m: int)
    requires rest == if start + 20 <= |t| then t[start + 20..] else ""
    requires m == LeastMatch(rest, LineStart, kw, 0)
    ensures m >= 0 ==> start + 20 + m < |t| && MatchesAt(t, start + 20 + m, LineStart, kw)
    ensures forall q :: start + 20 <= q && (m < 0 || q < start + 20 + m) ==> !MatchesAt(t, q, LineStart, kw)
  {
    if start + 20 <= |t| {
      if m >= 0 {
        LineStartInSuffix(t, start + 20, m, kw);
      }
      forall q | start + 20 <= q && (m < 0 || q < start + 20 + m)
        ensures !MatchesAt(t, q, LineStart, kw)
      {
        LineStartInSuffix(t, start + 20, q - start - 20, kw);
      }
    }
  }

  // ------------------------------------------------------------- properties

  /** A name that is not a key of the table has no keywords, so its
      section is never found. */
  lemma UnknownSectionIsEmpty(text: string, name: string)
    requires forall j :: 0 <= j < |HeaderTable| ==> HeaderTable[j].0 != name
    ensures SectionLines(text, name) == []
  {
  }

  /** The locator returns nothing when no keyword of the section occurs in
      the lowered text. */
  lemma AbsentSectionIsEmpty(text: string, name: string)
    requires forall j :: 0 <= j < |Keywords(name)| ==> !Contains(LowerStr(text), Keywords(name)[j])
    ensures SectionLines(text, name) == []
  {
  }

  /** The section's own entry of the table is skipped: the keywords that
      can end it are exactly those of the other entries. */
  lemma OwnHeadingsSkipped(name: string)
    ensures forall kw :: kw in OtherKeywords(name) <==>
      exists j :: 0 <= j < |HeaderTable| && HeaderTable[j].0 != name && kw in HeaderTable[j].1
  {
    KeywordsOfOthersMembers(name, |HeaderTable|);
  }

  /** dict.get returns nothing, or the keywords of an entry whose key is
      the name. */
  lemma {:induction false} LookupIsEntry(table: seq<(string, seq<string>)>, name: string)
    ensures Lookup(table, name) == []
            || exists j :: 0 <= j < |table| && table[j].0 == name && Lookup(table, name) == table[j].1
  {
    if table != [] && table[0].0 != name {
      LookupIsEntry(table[1..], name);
      if Lookup(table[1..], name) != [] {
        var j :| 0 <= j < |table[1..]| && table[1..][j].0 == name && Lookup(table[1..], name) == table[1..][j].1;
        assert table[j + 1].0 == name && Lookup(table, name) == table[j + 1].1;
      }
    }
  }

  /** The keys of the table are distinct, so each section name gets the
      keywords of its own entry. */
  lemma KeywordsOfEachSection()
    ensures forall j :: 0 <= j < |HeaderTable| ==> Keywords(HeaderTable[j].0) == HeaderTable[j].1
  {
    forall j, i | 0 <= i < j < |HeaderTable| ensures HeaderTable[i].0 != HeaderTable[j].0 {
    }
  }

  /** Every heading keyword is non-empty and starts with a lower-case letter. */
  lemma KeywordsAreWords(name: string)
    ensures forall k :: 0 <= k < |Keywords(name)| ==> Keywords(name)[k] != [] && 'a' <= Keywords(name)[k][0] <= 'z'
  {
    LookupIsEntry(HeaderTable, name);
    TableKeywordsAreWords();
  }

  lemma TableKeywordsAreWords()
    ensures forall j, k :: 0 <= j < |HeaderTable| && 0 <= k < |HeaderTable[j].1|
              ==> HeaderTable[j].1[k] != [] && 'a' <= HeaderTable[j].1[k][0] <= 'z'
  {
    forall j, k | 0 <= j < |HeaderTable| && 0 <= k < |HeaderTable[j].1|
      ensures HeaderTable[j].1[k] != [] && 'a' <= HeaderTable[j].1[k][0] <= 'z'
    {
    }
  }

  /** A word that starts with a non-space character does not occur in
      whitespace. */
  lemma BlankHasNoWord(t: string, w: string)
    requires AllSpace(t) && w != [] && !IsSpace(w[0])
    ensures !Contains(t, w)
  {
    forall i | 0 <= i <= |t| - |w| ensures !StartsAt(t, i, w) {
      assert t[i..i + |w|][0] == t[i];
    }
  }

  /** A text made only of whitespace has no section at all. */
  lemma BlankTextHasNoSection(text: string, name: string)
    requires AllSpace(text)
    ensures SectionLines(text, name) == []
  {
    var t := LowerStr(text);
    var kws := Keywords(name);
    KeywordsAreWords(name);
    assert AllSpace(t) by {
      forall i | 0 <= i < |t| ensures IsSpace(t[i]) {
        assert t[i] == Lower(text[i]) == text[i];
      }
    }
    forall j | 0 <= j < |kws| ensures !Contains(t, kws[j]) {
      BlankHasNoWord(t, kws[j]);
    }
    AbsentSectionIsEmpty(text, name);
  }

  /** The end search begins 20 characters past the start, so a heading of
      another section whose line break lies earlier does not end the
      section: with no heading at or after start + 20 the section runs to
      the end of the text. */
  lemma EarlyHeadingDoesNotEnd(text: string, name: string, start: nat)
    requires start == SectionStart(LowerStr(text), Keywords(name))
    requires forall q :: start + 20 <= q ==> !OtherHeadingAt(LowerStr(text), q, name)
    ensures SectionLines(text, name) == DropHeading(CleanLines(Strip(text[start..])), Keywords(name))
  {
    var t := LowerStr(text);
    var e := NextHeading(t, start + 20, name);
    assert e == |text|;
    assert text[start..e] == text[start..];
  }
}
