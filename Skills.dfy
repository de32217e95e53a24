/** The skill tokenizer of app.py (parse_skills): the section's lines are
    joined with spaces and cut at commas, bullets and pipes that stand
    outside parentheses; the pieces are trimmed, short pieces and four stop
    words are dropped, and the rest is returned as a set. */
module Skills {
  import opened Text

  /** The characters that close a token at parenthesis depth 0: comma,
      bullet U+2022, middle dot U+00B7, pipe, and the line break. */
  predicate IsDelimiter(c: char) {
    c == ',' || c == '\U{2022}' || c == '\U{B7}' || c == '|' || c == '\n'
  }

  /** The change a character makes to paren_depth. */
  function Delta(c: char): int {
    if c == '(' then 1 else if c == ')' then -1 else 0
  }

  /** paren_depth after scanning s: opening minus closing parentheses. It
      is never clamped, so an unmatched ')' makes it negative. */
  function Depth(s: string): int {
    if s == [] then 0 else Depth(s[..|s| - 1]) + Delta(s[|s| - 1])
  }

  lemma {:induction false} DepthAppend(a: string, b: string)
    ensures Depth(a + b) == Depth(a) + Depth(b)
    decreases |b|
  {
    if b != [] {
      var b' := b[..|b| - 1];
      var s := a + b;
      assert s[..|s| - 1] == a + b';
      assert s[|s| - 1] == b[|b| - 1];
      DepthAppend(a, b');
      assert Depth(s) == Depth(a + b') + Delta(b[|b| - 1]);
    } else {
      assert a + b == a;
    }
  }

  lemma {:induction false} DepthWithoutOpen(s: string)
    requires '(' !in s
    ensures Depth(s) <= 0
    ensures ')' !in s ==> Depth(s) == 0
  {
    if s != [] {
      DepthWithoutOpen(s[..|s| - 1]);
    }
  }

  /** The scanner's state after reading s: the pieces already closed by
      a delimiter, untrimmed, and the token still open. */
  datatype Cut = Cut(closed: seq<string>, open: string)

  /** The pieces of s between the characters that close tokens. */
  function Scan(s: string): Cut {
    if s == [] then Cut([], "")
    else
      var p := Scan(s[..|s| - 1]);
      var c := s[|s| - 1];
      if IsDelimiter(c) && Depth(s) == 0 then Cut(p.closed + [p.open], "")
      else Cut(p.closed, p.open + [c])
  }

  /** Reading one more character. */
  lemma ScanStep(s: string, c: char)
    ensures Depth(s + [c]) == Depth(s) + Delta(c)
    ensures Scan(s + [c]) ==
              if IsDelimiter(c) && Depth(s) + Delta(c) == 0 then Cut(Scan(s).closed + [Scan(s).open], "")
              else Cut(Scan(s).closed, Scan(s).open + [c])
  {
    var t := s + [c];
    assert t[..|t| - 1] == s;
    assert t[|t| - 1] == c;
  }

  /** A token that survives the length filter: trimmed and longer than one
      character; otherwise nothing. */
  function KeepWord(seg: string): (r: seq<string>)
    ensures forall k :: 0 <= k < |r| ==> |r[k]| > 1 && IsTrimmed(r[k])
  {
    var w := Strip(seg);
    if |w| > 1 then [w] else []
  }

  /** found_skills built from the pieces, in order. */
  function Words(segs: seq<string>): (r: seq<string>)
    ensures forall k :: 0 <= k < |r| ==> |r[k]| > 1 && IsTrimmed(r[k])
  {
    if segs == [] then [] else Words(segs[..|segs| - 1]) + KeepWord(segs[|segs| - 1])
  }

  lemma WordsSnoc(segs: seq<string>, seg: string)
    ensures Words(segs + [seg]) == Words(segs) + KeepWord(seg)
  {
    assert (segs + [seg])[..|segs|] == segs;
  }

  /** The tokens of a text, before the stop words are removed. */
  function Tokens(text: string): seq<string> {
    var k := Scan(text);
    Words(k.closed + [k.open])
  }

  const StopWords: seq<string> := ["skills", "technologies", "include", "following"]

  predicate IsStopWord(w: string) {
    LowerStr(w) in StopWords
  }

  /** [s for s in found if s.lower() not in stop_words] */
  function DropStopWords(ws: seq<string>): (r: seq<string>)
    ensures forall w :: w in r <==> w in ws && !IsStopWord(w)
  {
    if ws == [] then []
    else (if IsStopWord(ws[0]) then [] else [ws[0]]) + DropStopWords(ws[1..])
  }

  /** Python's set(ws). */
  function SetOf(ws: seq<string>): (r: set<string>)
    ensures forall w :: w in r <==> w in ws
  {
    set w | w in ws
  }

  lemma SetOfSingleton(w: string)
    ensures SetOf([w]) == {w}
  {
    assert forall x :: x in SetOf([w]) <==> x == w;
  }

  /** What parse_skills(lines) returns, as a set: the tokens of the lines
      joined by spaces that are not stop words. */
  function SkillSet(lines: seq<string>): (r: set<string>)
    ensures forall w :: w in r <==> w in Tokens(Join(" ", lines)) && !IsStopWord(w)
    ensures forall w :: w in r ==> |w| > 1 && IsTrimmed(w)
  {
    SetOf(DropStopWords(Tokens(Join(" ", lines))))
  }

  /** The character loop of parse_skills: found_skills for the joined text. */
  method ScanTokens(text: string) returns (found: seq<string>)
    ensures found == Tokens(text)
  {
    found := [];
    var current: string := [];
    var depth := 0;
    ghost var done: seq<string> := [];
    var i := 0;
    while i < |text|
      invariant 0 <= i <= |text|
      invariant depth == Depth(text[..i])
      invariant Scan(text[..i]) == Cut(done, current)
      invariant found == Words(done)
    {
      var c := text[i];
      assert text[..i + 1] == text[..i] + [c];
      ScanStep(text[..i], c);
      if c == '(' { depth := depth + 1; }
      if c == ')' { depth := depth - 1; }
      if IsDelimiter(c) && depth == 0 {
        var word := Strip(current);
        if |word| > 1 {
          found := found + [word];
        }
        WordsSnoc(done, current);
        done := done + [current];
        current := [];
      } else {
        current := current + [c];
      }
      i := i + 1;
    }
    assert text[..i] == text;
    if current != [] {
      var word := Strip(current);
      if |word| > 1 {
        found := found + [word];
      }
    }
    WordsSnoc(done, current);
  }

  /** parse_skills(lines). */
  method ParseSkills(lines: seq<string>) returns (skills: set<string>)
    ensures skills == SkillSet(lines)
  {
    var text := Join(" ", lines);
    var found := ScanTokens(text);
    var final := DropStopWords(found);
    skills := SetOf(final);
  }

  // ------------------------------------------------------------- properties

  /** A closing delimiter at depth 0 cuts the text there: the pieces are
      those of the part before, then those of the part after. */
  lemma {:induction false} ScanAtSplit(a: string, d: char, b: string)
    requires IsDelimiter(d) && Depth(a) == 0
    ensures Scan(a + [d] + b) == Cut(Scan(a).closed + [Scan(a).open] + Scan(b).closed, Scan(b).open)
    decreases |b|
  {
    if b == [] {
      var s := a + [d];
      assert a + [d] + b == s;
      assert s[..|s| - 1] == a;
      assert Scan(a).closed + [Scan(a).open] + Scan(b).closed == Scan(a).closed + [Scan(a).open];
      DepthAppend(a, [d]);
      assert Depth([d]) == Depth([]) + Delta(d);
    } else {
      var b' := b[..|b| - 1];
      var s := a + [d] + b;
      assert s[..|s| - 1] == a + [d] + b';
      ScanAtSplit(a, d, b');
      DepthAppend(a + [d], b);
      DepthAppend(a, [d]);
      assert Depth([d]) == Depth([]) + Delta(d);
    }
  }

  /** Without a delimiter at depth 0 the whole text is one open token. */
  lemma {:induction false} ScanNoSplit(s: string)
    requires forall i :: 0 <= i < |s| && IsDelimiter(s[i]) ==> Depth(s[..i + 1]) != 0
    ensures Scan(s) == Cut([], s)
  {
    if s != [] {
      var p := s[..|s| - 1];
      forall i | 0 <= i < |p| && IsDelimiter(p[i]) ensures Depth(p[..i + 1]) != 0 {
        assert p[..i + 1] == s[..i + 1];
      }
      ScanNoSplit(p);
      assert s[..|s|] == s;
      assert p + [s[|s| - 1]] == s;
    }
  }

  /** Depth of a prefix of "a(b" when a and b hold no parenthesis. */
  lemma OpenGroupDepth(a: string, b: string)
    requires '(' !in a && ')' !in a && '(' !in b && ')' !in b
    ensures Depth(a + "(" + b) == 1
  {
    DepthWithoutOpen(a);
    DepthWithoutOpen(b);
    DepthAppend(a, "(");
    DepthAppend(a + "(", b);
    assert Depth("(") == Depth([]) + Delta('(');
  }

  /** No delimiter of "a(b)c" leaves the depth at 0, under the
      conditions of ParenGroupKept. */
  lemma GroupHasNoSplit(a: string, b: string, c: string, i: int)
    requires forall i :: 0 <= i < |a| ==> !IsDelimiter(a[i]) && a[i] != '(' && a[i] != ')'
    requires forall i :: 0 <= i < |c| ==> !IsDelimiter(c[i])
    requires '(' !in b && ')' !in b
    requires 0 <= i < |a + "(" + b + ")" + c|
    ensures IsDelimiter((a + "(" + b + ")" + c)[i]) ==> Depth((a + "(" + b + ")" + c)[..i + 1]) != 0
  {
    var s := a + "(" + b + ")" + c;
    if i < |a| {
      assert s[i] == a[i];
    } else if i == |a| {
      assert s[i] == '(';
    } else if i <= |a| + |b| {
      var k := i - |a| - 1;
      assert s[..i + 1] == a + "(" + b[..k + 1];
      assert forall x :: x in b[..k + 1] ==> x in b;
      assert '(' !in a && ')' !in a by {
        assert forall x :: x in a ==> exists j :: 0 <= j < |a| && a[j] == x;
      }
      OpenGroupDepth(a, b[..k + 1]);
    } else if i == |a| + |b| + 1 {
      assert s[i] == ')';
    } else {
      assert s[i] == c[i - |a| - |b| - 2];
    }
  }

  /** Inside parentheses no delimiter splits: a group "a(b)c" whose outer
      parts hold no delimiter and which holds no other parenthesis is one
      token, however many commas, bullets or pipes b contains. */
  lemma ParenGroupKept(a: string, b: string, c: string)
    requires forall i :: 0 <= i < |a| ==> !IsDelimiter(a[i]) && a[i] != '(' && a[i] != ')'
    requires forall i :: 0 <= i < |c| ==> !IsDelimiter(c[i])
    requires '(' !in b && ')' !in b
    ensures Scan(a + "(" + b + ")" + c) == Cut([], a + "(" + b + ")" + c)
  {
    var s := a + "(" + b + ")" + c;
    forall i | 0 <= i < |s| && IsDelimiter(s[i]) ensures Depth(s[..i + 1]) != 0 {
      GroupHasNoSplit(a, b, c, i);
    }
    ScanNoSplit(s);
  }

  /** An unmatched ')' drives the depth negative, and with no '(' after it
      nothing after it splits: the rest of the text joins the open token. */
  lemma {:induction false} UnmatchedCloseSuppressesSplits(a: string, b: string)
    requires Depth(a) < 0 && '(' !in b
    ensures Scan(a + b) == Cut(Scan(a).closed, Scan(a).open + b)
    decreases |b|
  {
    if b == [] {
      assert a + b == a;
      assert Scan(a).open + b == Scan(a).open;
    } else {
      var b' := b[..|b| - 1];
      assert '(' !in b' by {
        assert forall x :: x in b' ==> x in b;
      }
      UnmatchedCloseSuppressesSplits(a, b');
      var s := a + b;
      assert s[..|s| - 1] == a + b';
      DepthWithoutOpen(b);
      DepthAppend(a, b);
      assert Scan(a).open + b' + [b[|b| - 1]] == Scan(a).open + b;
    }
  }

  /** The lines the locator returns hold no line break, so joined with
      spaces they hold none either: the '\n' delimiter never fires. */
  lemma {:induction false} JoinedLinesHaveNoBreak(lines: seq<string>)
    requires forall k :: 0 <= k < |lines| ==> '\n' !in lines[k]
    ensures '\n' !in Join(" ", lines)
  {
    if |lines| > 1 {
      JoinedLinesHaveNoBreak(lines[1..]);
    }
  }

  /** A trimmed line without delimiters that is longer than one character
      and not a stop word is, on its own, exactly one skill. */
  lemma PlainLineIsOneSkill(l: string)
    requires forall i :: 0 <= i < |l| ==> !IsDelimiter(l[i])
    requires IsTrimmed(l) && |l| > 1 && !IsStopWord(l)
    ensures SkillSet([l]) == {l}
  {
    ScanNoSplit(l);
    StripTrimmed(l);
    assert Scan(l).closed + [Scan(l).open] == [l];
    assert [l][..0] == [];
    assert KeepWord(l) == [l];
    assert Words([l]) == Words([]) + KeepWord(l);
    assert Tokens(l) == [l];
    assert Join(" ", [l]) == l;
    assert DropStopWords([l]) == [l] by {
      assert [l][1..] == [];
    }
    SetOfSingleton(l);
  }

  /** A balanced group "a(b)" ends at depth 0 and is one open token. */
  lemma GroupBalanced(a: string, b: string)
    requires forall i :: 0 <= i < |a| ==> !IsDelimiter(a[i]) && a[i] != '(' && a[i] != ')'
    requires '(' !in b && ')' !in b
    ensures Depth(a + "(" + b + ")") == 0
    ensures Scan(a + "(" + b + ")") == Cut([], a + "(" + b + ")")
  {
    OpenGroupDepth(a, b);
    DepthAppend(a + "(" + b, ")");
    assert Depth(")") == Depth("") + Delta(')');
    ParenGroupKept(a, b, "");
    assert a + "(" + b + ")" + "" == a + "(" + b + ")";
  }

  /** A delimiter after a one-token text g at depth 0 closes g; a plain
      token after it stays open. */
  lemma DelimiterAfterToken(g: string, d: char, w: string)
    requires IsDelimiter(d) && Depth(g) == 0 && Scan(g) == Cut([], g)
    requires forall i :: 0 <= i < |w| ==> !IsDelimiter(w[i])
    ensures Scan(g + [d] + w) == Cut([g], w)
  {
    ScanAtSplit(g, d, w);
    ScanNoSplit(w);
  }

  lemma TwoWords(g: string, w: string)
    ensures Words([g] + [w]) == KeepWord(g) + KeepWord(w)
  {
    var s := [g] + [w];
    assert s[..1] == [g] && s[1] == w;
    assert [g][..0] == [];
    assert Words([g]) == Words([]) + KeepWord(g);
  }

  /** "Microsoft (Excel, Word), Python" in general form: a group such as
      "Microsoft (Excel, Word)" followed by a comma and a plain token such
      as " Python" yields exactly those two skills, trimmed. */
  lemma GroupThenSkill(a: string, b: string, w: string)
    requires forall i :: 0 <= i < |a| ==> !IsDelimiter(a[i]) && a[i] != '(' && a[i] != ')'
    requires '(' !in b && ')' !in b
    requires forall i :: 0 <= i < |w| ==> !IsDelimiter(w[i])
    requires |Strip(a + "(" + b + ")")| > 1 && |Strip(w)| > 1
    requires !IsStopWord(Strip(a + "(" + b + ")")) && !IsStopWord(Strip(w))
    ensures SkillSet([a + "(" + b + ")" + "," + w]) == {Strip(a + "(" + b + ")"), Strip(w)}
  {
    var g := a + "(" + b + ")";
    GroupBalanced(a, b);
    TwoSkills(g, w);
    assert g + [','] + w == a + "(" + b + ")" + "," + w;
  }

  lemma TwoSkills(g: string, w: string)
    requires Depth(g) == 0 && Scan(g) == Cut([], g)
    requires forall i :: 0 <= i < |w| ==> !IsDelimiter(w[i])
    requires |Strip(g)| > 1 && |Strip(w)| > 1 && !IsStopWord(Strip(g)) && !IsStopWord(Strip(w))
    ensures SkillSet([g + [','] + w]) == {Strip(g), Strip(w)}
  {
    KeepBoth(g, w);
    var line := g + [','] + w;
    JoinOne(line);
    DelimiterAfterToken(g, ',', w);
    TwoWords(g, w);
    assert Tokens(line) == [Strip(g), Strip(w)];
    KeptPair(Strip(g), Strip(w));
  }

  lemma KeepBoth(g: string, w: string)
    requires |Strip(g)| > 1 && |Strip(w)| > 1
    ensures KeepWord(g) + KeepWord(w) == [Strip(g), Strip(w)]
  {
  }

  lemma JoinOne(line: string)
    ensures Join(" ", [line]) == line
  {
  }

  lemma KeptPair(x: string, y: string)
    requires !IsStopWord(x) && !IsStopWord(y)
    ensures SetOf(DropStopWords([x, y])) == {x, y}
  {
    assert [x, y][1..] == [y] && [y][1..] == [];
    assert DropStopWords([y]) == [y];
    assert DropStopWords([x, y]) == [x] + [y];
    assert forall z :: z in SetOf([x, y]) <==> z == x || z == y;
  }
}
