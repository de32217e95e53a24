/** The string primitives the parser is built from: Python's str.lower(),
    str.strip(), str.split("\n"), str.join, the `in` substring test, and the
    three small regular expressions of the segmenters, written as predicates.
    Characters are Unicode scalar values; only the ASCII letters are folded. */
module Text {

  /** Python's str.isspace(): the ASCII controls TAB..CR, space, the
      separator controls FS..US, NEL, NBSP and the Unicode space separators. */
  predicate IsSpace(c: char) {
    || c == ' '
    || '\t' <= c <= '\r'
    || '\U{1C}' <= c <= '\U{1F}'
    || c == '\U{85}' || c == '\U{A0}' || c == '\U{1680}'
    || '\U{2000}' <= c <= '\U{200A}'
    || c == '\U{2028}' || c == '\U{2029}' || c == '\U{202F}' || c == '\U{205F}' || c == '\U{3000}'
  }

  predicate IsDigit(c: char) {
    '0' <= c <= '9'
  }

  /** ASCII case folding, the part of str.lower() the parser depends on. */
  function Lower(c: char): char {
    if 'A' <= c <= 'Z' then (c as int + 32) as char else c
  }

  /** str.lower(): keeps the length, so an index into the lowered text is an
      index into the original one. */
  function LowerStr(s: string): (r: string)
    ensures |r| == |s|
    ensures forall i :: 0 <= i < |s| ==> r[i] == Lower(s[i])
  {
    if s == [] then [] else [Lower(s[0])] + LowerStr(s[1..])
  }

  /** The pattern p occurs in s at index i. */
  predicate StartsAt(s: string, i: int, p: string) {
    0 <= i && i + |p| <= |s| && s[i..i + |p|] == p
  }

  /** Python's `p in s`. */
  predicate Contains(s: string, p: string) {
    exists i :: 0 <= i <= |s| - |p| && StartsAt(s, i, p)
  }

  /** Python's `any(p in s for p in ps)`. */
  predicate ContainsAny(s: string, ps: seq<string>) {
    exists p :: p in ps && Contains(s, p)
  }

  /** The regular expression \d: some character is a digit. */
  predicate HasDigit(s: string) {
    exists i :: 0 <= i < |s| && IsDigit(s[i])
  }

  /** Four digits starting at index i. */
  predicate FourDigitsAt(s: string, i: int) {
    0 <= i && i + 4 <= |s| && IsDigit(s[i]) && IsDigit(s[i + 1]) && IsDigit(s[i + 2]) && IsDigit(s[i + 3])
  }

  /** The regular expression \d{4}. */
  predicate HasFourDigits(s: string) {
    exists i | 0 <= i <= |s| - 4 :: FourDigitsAt(s, i)
  }

  /** `20\d\d` or `19\d\d` starting at index i. */
  predicate YearAt(s: string, i: int) {
    && 0 <= i && i + 4 <= |s|
    && ((s[i] == '2' && s[i + 1] == '0') || (s[i] == '1' && s[i + 1] == '9'))
    && IsDigit(s[i + 2]) && IsDigit(s[i + 3])
  }

  /** The regular expression 20\d\d|19\d\d|present. */
  predicate IsDateLike(s: string) {
    (exists i | 0 <= i <= |s| - 4 :: YearAt(s, i)) || Contains(s, "present")
  }

  // ---------------------------------------------------------------- strip

  /** Number of whitespace characters at the front of s. */
  function LeadingSpace(s: string): (n: nat)
    ensures n <= |s|
    ensures forall i :: 0 <= i < n ==> IsSpace(s[i])
    ensures n < |s| ==> !IsSpace(s[n])
  {
    if s == [] || !IsSpace(s[0]) then 0 else 1 + LeadingSpace(s[1..])
  }

  /** Number of whitespace characters at the back of s. */
  function TrailingSpace(s: string): (n: nat)
    ensures n <= |s|
    ensures forall i :: |s| - n <= i < |s| ==> IsSpace(s[i])
    ensures n < |s| ==> !IsSpace(s[|s| - 1 - n])
  {
    if s == [] || !IsSpace(s[|s| - 1]) then 0 else 1 + TrailingSpace(s[..|s| - 1])
  }

  predicate AllSpace(s: string) {
    forall i :: 0 <= i < |s| ==> IsSpace(s[i])
  }

  /** Neither end of s is whitespace. */
  predicate IsTrimmed(s: string) {
    s == [] || (!IsSpace(s[0]) && !IsSpace(s[|s| - 1]))
  }

  /** Python's str.strip(): the longest middle part of s that neither starts
      nor ends with whitespace; empty exactly when s is all whitespace. */
  function Strip(s: string): (r: string)
    ensures IsTrimmed(r)
    ensures r == [] <==> AllSpace(s)
    ensures var a := LeadingSpace(s);
              && a + |r| <= |s| && s[a..a + |r|] == r
              && forall i :: a + |r| <= i < |s| ==> IsSpace(s[i])
  {
    var a := LeadingSpace(s);
    var b := |s| - TrailingSpace(s);
    if a < b then s[a..b] else []
  }

  /** Stripping trimmed text changes nothing. */
  lemma StripTrimmed(s: string)
    requires IsTrimmed(s)
    ensures Strip(s) == s
  {
    if s != [] {
      assert LeadingSpace(s) == 0 && TrailingSpace(s) == 0;
      assert s[0..|s|] == s;
    }
  }

  // ------------------------------------------------------- split and join

  /** Python's s.split(sep) for a one-character separator. */
  function Split(s: string, sep: char): (parts: seq<string>)
    ensures |parts| >= 1
    ensures forall k :: 0 <= k < |parts| ==> sep !in parts[k]
  {
    if s == [] then [""]
    else if s[0] == sep then [""] + Split(s[1..], sep)
    else
      var rest := Split(s[1..], sep);
      [[s[0]] + rest[0]] + rest[1..]
  }

  /** Python's sep.join(parts). */
  function Join(sep: string, parts: seq<string>): string {
    if parts == [] then ""
    else if |parts| == 1 then parts[0]
    else parts[0] + sep + Join(sep, parts[1..])
  }

  /** Splitting and joining back gives the original text. */
  lemma {:induction false} JoinSplit(s: string, sep: char)
    ensures Join([sep], Split(s, sep)) == s
  {
    if s == [] {
    } else if s[0] == sep {
      JoinSplit(s[1..], sep);
      assert s == [sep] + s[1..];
    } else {
      JoinSplit(s[1..], sep);
      var rest := Split(s[1..], sep);
      if |rest| == 1 {
      } else {
        assert Join([sep], rest) == rest[0] + [sep] + Join([sep], rest[1..]);
        assert s == [s[0]] + s[1..];
      }
    }
  }

  /** A separator character cuts the split exactly there. */
  lemma {:induction false} SplitAppend(a: string, sep: char, b: string)
    requires sep !in a
    ensures Split(a + [sep] + b, sep) == Split(a, sep) + Split(b, sep)
  {
    if a == [] {
      assert a + [sep] + b == [sep] + b;
      assert ([sep] + b)[1..] == b;
    } else {
      assert (a + [sep] + b)[1..] == a[1..] + [sep] + b;
      SplitAppend(a[1..], sep, b);
    }
  }

  /** A text without the separator is a single part. */
  lemma {:induction false} SplitNone(a: string, sep: char)
    requires sep !in a
    ensures Split(a, sep) == [a]
  {
    if a != [] {
      SplitNone(a[1..], sep);
      assert a == [a[0]] + a[1..];
    }
  }

  // ---------------------------------------------------------- clean lines

  /** One part of the comprehension below: the stripped part, unless blank. */
  function KeepLine(p: string): (r: seq<string>)
    ensures |r| <= 1
    ensures forall k :: 0 <= k < |r| ==> r[k] != [] && IsTrimmed(r[k])
  {
    var l := Strip(p);
    if l != [] then [l] else []
  }

  /** [p.strip() for p in parts if p.strip()] */
  function StrippedNonBlank(parts: seq<string>): (r: seq<string>)
    ensures |r| <= |parts|
    ensures forall k :: 0 <= k < |r| ==> r[k] != [] && IsTrimmed(r[k])
  {
    if parts == [] then [] else KeepLine(parts[0]) + StrippedNonBlank(parts[1..])
  }

  lemma {:induction false} StrippedNonBlankAppend(a: seq<string>, b: seq<string>)
    ensures StrippedNonBlank(a + b) == StrippedNonBlank(a) + StrippedNonBlank(b)
  {
    if a == [] {
      assert a + b == b;
    } else {
      assert (a + b)[0] == a[0];
      assert (a + b)[1..] == a[1..] + b;
      StrippedNonBlankAppend(a[1..], b);
      calc {
        StrippedNonBlank(a + b);
        KeepLine(a[0]) + StrippedNonBlank(a[1..] + b);
        KeepLine(a[0]) + (StrippedNonBlank(a[1..]) + StrippedNonBlank(b));
        (KeepLine(a[0]) + StrippedNonBlank(a[1..])) + StrippedNonBlank(b);
      }
    }
  }

  /** [l.strip() for l in s.split("\n") if l.strip()]: the non-blank lines of s, trimmed. */
  function CleanLines(s: string): (r: seq<string>)
    ensures forall k :: 0 <= k < |r| ==> r[k] != [] && IsTrimmed(r[k]) && '\n' !in r[k]
  {
    var parts := Split(s, '\n');
    var r := StrippedNonBlank(parts);
    assert forall k :: 0 <= k < |r| ==> '\n' !in r[k] by {
      StrippedNonBlankLines(parts);
    }
    r
  }

  lemma {:induction false} StrippedNonBlankLines(parts: seq<string>)
    requires forall k :: 0 <= k < |parts| ==> '\n' !in parts[k]
    ensures forall k :: 0 <= k < |StrippedNonBlank(parts)| ==> '\n' !in StrippedNonBlank(parts)[k]
  {
    if parts != [] {
      StrippedNonBlankLines(parts[1..]);
      var s := Strip(parts[0]);
      var a := LeadingSpace(parts[0]);
      assert forall i :: 0 <= i < |s| ==> s[i] == parts[0][a + i];
    }
  }

  /** The lines of a text in which no line break occurs: one trimmed line, or none if blank. */
  lemma CleanLinesOfLine(a: string)
    requires '\n' !in a
    ensures CleanLines(a) == if Strip(a) == [] then [] else [Strip(a)]
  {
    SplitNone(a, '\n');
  }

  /** Cleaning distributes over line breaks, so the kept lines keep the text's order. */
  lemma CleanLinesAppend(a: string, b: string)
    requires '\n' !in a
    ensures CleanLines(a + "\n" + b) == CleanLines(a) + CleanLines(b)
  {
    SplitAppend(a, '\n', b);
    SplitNone(a, '\n');
    StrippedNonBlankAppend(Split(a, '\n'), Split(b, '\n'));
  }

  lemma {:induction false} SplitOfBlank(s: string, sep: char)
    requires AllSpace(s)
    ensures forall k :: 0 <= k < |Split(s, sep)| ==> AllSpace(Split(s, sep)[k])
  {
    if s != [] {
      SplitOfBlank(s[1..], sep);
    }
  }

  lemma {:induction false} StrippedNonBlankOfBlank(parts: seq<string>)
    requires forall k :: 0 <= k < |parts| ==> AllSpace(parts[k])
    ensures StrippedNonBlank(parts) == []
  {
    if parts != [] {
      StrippedNonBlankOfBlank(parts[1..]);
    }
  }

  /** A text made only of whitespace has no lines. */
  lemma CleanLinesOfBlank(s: string)
    requires AllSpace(s)
    ensures CleanLines(s) == []
  {
    SplitOfBlank(s, '\n');
    StrippedNonBlankOfBlank(Split(s, '\n'));
  }
}
