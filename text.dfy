/**
  The Python string built-ins both tools rely on (`str.strip`, `lstrip`, `rstrip`,
  `lower`, `isalpha`, `isalnum`, `find`, `"\n".join`, `splitlines`), restricted to
  ASCII characters.
 */
module PyText {

  /** Python's `X | None`. */
  datatype Option<+T> = None | Some(value: T)

  /** The ASCII characters `str.isspace` accepts: what `strip`, `lstrip` and `rstrip` remove. */
  predicate IsWhitespace(c: char) {
    c == ' ' || c == '\t' || c == '\n' || c == '\r' || c == '\U{0B}' || c == '\U{0C}'
    || ('\U{1C}' <= c <= '\U{1F}')
  }

  /** The two characters the Lua scanner skips between tokens. */
  predicate IsSpaceOrTab(c: char) {
    c == ' ' || c == '\t'
  }

  predicate IsAsciiAlpha(c: char) {
    'a' <= c <= 'z' || 'A' <= c <= 'Z'
  }

  predicate IsAsciiAlnum(c: char) {
    IsAsciiAlpha(c) || '0' <= c <= '9'
  }

  function LowerChar(c: char): char {
    if 'A' <= c <= 'Z' then (c as int + 32) as char else c
  }

  /** `str.lower` on ASCII. */
  function Lower(s: string): (r: string)
    ensures |r| == |s|
  {
    seq(|s|, i requires 0 <= i < |s| => LowerChar(s[i]))
  }

  predicate AllWhitespace(s: string) {
    forall i :: 0 <= i < |s| ==> IsWhitespace(s[i])
  }

  predicate AllSpaceOrTab(s: string) {
    forall i :: 0 <= i < |s| ==> IsSpaceOrTab(s[i])
  }

  /** `str.lstrip()`: the suffix left after removing leading whitespace. */
  function LStrip(s: string): (r: string)
    ensures |r| <= |s|
  {
    if s != [] && IsWhitespace(s[0]) then LStrip(s[1..]) else s
  }

  /** `str.rstrip()`: the prefix left after removing trailing whitespace. */
  function RStrip(s: string): (r: string)
    ensures |r| <= |s|
  {
    if s != [] && IsWhitespace(s[|s| - 1]) then RStrip(s[..|s| - 1]) else s
  }

  /** `lstrip` removes exactly the leading whitespace: what it drops is whitespace, what it keeps does not start with any. */
  lemma {:induction false} LStripSpec(s: string)
    ensures LStrip(s) == s[|s| - |LStrip(s)|..]
    ensures AllWhitespace(s[..|s| - |LStrip(s)|])
    ensures LStrip(s) == [] || !IsWhitespace(LStrip(s)[0])
    decreases |s|
  {
    if s != [] && IsWhitespace(s[0]) {
      LStripSpec(s[1..]);
      var k := |s| - |LStrip(s)|;
      assert s[1..][..k - 1] == s[1..k];
      assert s[1..][k - 1..] == s[k..];
    }
  }

  /** `rstrip` removes exactly the trailing whitespace. */
  lemma {:induction false} RStripSpec(s: string)
    ensures RStrip(s) == s[..|RStrip(s)|]
    ensures AllWhitespace(s[|RStrip(s)|..])
    ensures RStrip(s) == [] || !IsWhitespace(RStrip(s)[|RStrip(s)| - 1])
    decreases |s|
  {
    if s != [] && IsWhitespace(s[|s| - 1]) {
      var t := s[..|s| - 1];
      RStripSpec(t);
      var k := |RStrip(s)|;
      assert t[..k] == s[..k];
      assert t[k..] + [s[|s| - 1]] == s[k..];
    }
  }

  /** `str.strip()`. */
  function Strip(s: string): string {
    RStrip(LStrip(s))
  }

  /** Where the stripped text begins inside `s`. */
  function CoreStart(s: string): nat {
    |s| - |LStrip(s)|
  }

  lemma ThreeParts(x: string, i: nat, j: nat)
    requires i <= j <= |x|
    ensures x == x[..i] + x[i..j] + x[j..]
  {
  }

  lemma {:induction false} StripSlice(s: string)
    ensures CoreStart(s) + |Strip(s)| <= |s|
    ensures Strip(s) == s[CoreStart(s)..CoreStart(s) + |Strip(s)|]
  {
    var l := LStrip(s);
    LStripSpec(s);
    RStripSpec(l);
    assert l == s[CoreStart(s)..];
    assert RStrip(l) == l[..|RStrip(l)|];
  }

  lemma {:induction false} StripRemainder(s: string)
    ensures CoreStart(s) + |Strip(s)| <= |s|
    ensures LStrip(s)[|Strip(s)|..] == s[CoreStart(s) + |Strip(s)|..]
  {
    var l := LStrip(s);
    LStripSpec(s);
    assert l == s[CoreStart(s)..];
  }

  /** `s` is its leading whitespace, then `Strip(s)`, then its trailing whitespace. */
  lemma {:induction false} StripIsCore(s: string)
    ensures CoreStart(s) + |Strip(s)| <= |s|
    ensures Strip(s) == s[CoreStart(s)..CoreStart(s) + |Strip(s)|]
    ensures s == s[..CoreStart(s)] + Strip(s) + s[CoreStart(s) + |Strip(s)|..]
    ensures AllWhitespace(s[..CoreStart(s)]) && AllWhitespace(s[CoreStart(s) + |Strip(s)|..])
    ensures Strip(s) == [] || (!IsWhitespace(Strip(s)[0]) && !IsWhitespace(Strip(s)[|Strip(s)| - 1]))
  {
    StripSlice(s);
    StripRemainder(s);
    LStripSpec(s);
    RStripSpec(LStrip(s));
    ThreeParts(s, CoreStart(s), CoreStart(s) + |Strip(s)|);
    var r := Strip(s);
    if r != [] {
      assert r[0] == LStrip(s)[0];
    }
  }

  /** A line is blank exactly when it is empty or made of whitespace only. */
  lemma {:induction false} StripEmptyIffAllWhitespace(s: string)
    ensures Strip(s) == [] <==> AllWhitespace(s)
  {
    StripIsCore(s);
    var a := CoreStart(s);
    if Strip(s) == [] {
      assert s[..|s|] == s;
    } else {
      assert !IsWhitespace(s[a]);
    }
  }

  lemma {:induction false} LStripPadded(p: string, t: string)
    requires AllWhitespace(p)
    requires t == [] || !IsWhitespace(t[0])
    ensures LStrip(p + t) == t
  {
    if p != [] {
      assert (p + t)[1..] == p[1..] + t;
      LStripPadded(p[1..], t);
    } else {
      assert p + t == t;
    }
  }

  lemma {:induction false} RStripPadded(t: string, q: string)
    requires AllWhitespace(q)
    requires t == [] || !IsWhitespace(t[|t| - 1])
    ensures RStrip(t + q) == t
  {
    if q != [] {
      assert (t + q)[..|t + q| - 1] == t + q[..|q| - 1];
      RStripPadded(t, q[..|q| - 1]);
    } else {
      assert t + q == t;
    }
  }

  /** Stripping text that is already stripped, behind any whitespace, gives the text back. */
  lemma StripPadded(p: string, t: string)
    requires AllWhitespace(p)
    requires t == [] || (!IsWhitespace(t[0]) && !IsWhitespace(t[|t| - 1]))
    ensures LStrip(p + t) == t && Strip(p + t) == t
  {
    LStripPadded(p, t);
    RStripPadded(t, []);
    assert t + [] == t;
  }

  lemma RStripIdempotent(s: string)
    ensures RStrip(RStrip(s)) == RStrip(s)
  {
    RStripSpec(s);
    RStripPadded(RStrip(s), []);
    assert RStrip(s) + [] == RStrip(s);
  }

  /** `pat` occurs in `s` at index `j`. */
  predicate OccursAt(s: string, pat: string, j: int) {
    0 <= j && j + |pat| <= |s| && s[j..j + |pat|] == pat
  }

  /** `s.find(pat, start)`: the lowest index at or after `start` where `pat` occurs, or -1. */
  function Find(s: string, pat: string, start: nat): (r: int)
    ensures r == -1 || (start <= r && r + |pat| <= |s|)
    decreases |s| - start
  {
    if start + |pat| > |s| then -1
    else if s[start..start + |pat|] == pat then start
    else Find(s, pat, start + 1)
  }

  /** `find` returns the first occurrence at or after `start`, and -1 exactly when there is none. */
  lemma {:induction false} FindSpec(s: string, pat: string, start: nat)
    ensures Find(s, pat, start) != -1 ==> OccursAt(s, pat, Find(s, pat, start))
    ensures Find(s, pat, start) == -1 ==> forall j :: start <= j ==> !OccursAt(s, pat, j)
    ensures Find(s, pat, start) != -1 ==> forall j :: start <= j < Find(s, pat, start) ==> !OccursAt(s, pat, j)
    decreases |s| - start
  {
    if start + |pat| <= |s| && s[start..start + |pat|] != pat {
      FindSpec(s, pat, start + 1);
    }
  }

  /** Searching from `i + d` in `s` is searching from `d` in `s[i..]`, shifted by `i`. */
  lemma {:induction false} FindShift(s: string, pat: string, i: nat, d: nat)
    requires i <= |s|
    ensures Find(s, pat, i + d) == (if Find(s[i..], pat, d) == -1 then -1 else i + Find(s[i..], pat, d))
    decreases |s| - i - d
  {
    if i + d + |pat| <= |s| {
      assert s[i + d..i + d + |pat|] == s[i..][d..d + |pat|];
      if s[i + d..i + d + |pat|] != pat {
        FindShift(s, pat, i, d + 1);
      }
    }
  }

  /** `unit * n`. */
  function Repeat(unit: string, n: nat): (r: string)
    ensures |r| == |unit| * n
  {
    if n == 0 then [] else unit + Repeat(unit, n - 1)
  }

  lemma {:induction false} RepeatChar(c: char, n: nat)
    ensures |Repeat([c], n)| == n
    ensures forall i :: 0 <= i < n ==> Repeat([c], n)[i] == c
  {
    if n > 0 {
      RepeatChar(c, n - 1);
    }
  }

  /** `"\n".join(lines)`. */
  function JoinLines(lines: seq<string>): string {
    if |lines| == 0 then []
    else if |lines| == 1 then lines[0]
    else lines[0] + "\n" + JoinLines(lines[1..])
  }

  /** What the tools write: the lines joined by newlines, then one final newline. */
  function Serialise(lines: seq<string>): string {
    JoinLines(lines) + "\n"
  }

  predicate HasNoNewline(s: string) {
    forall i :: 0 <= i < |s| ==> s[i] != '\n'
  }

  /** `text.splitlines()` for text whose only line boundary is `\n`. */
  function SplitLines(text: string): seq<string>
    decreases |text|
  {
    if text == [] then []
    else
      var j := Find(text, "\n", 0);
      if j == -1 then [text] else [text[..j]] + SplitLines(text[j + 1..])
  }

  /** No line `splitlines` returns holds a newline. */
  lemma {:induction false} SplitLinesNoNewline(text: string)
    ensures forall k :: 0 <= k < |SplitLines(text)| ==> HasNoNewline(SplitLines(text)[k])
    decreases |text|
  {
    if text != [] {
      var j := Find(text, "\n", 0);
      FindSpec(text, "\n", 0);
      forall i | 0 <= i < |text| && (j == -1 || i < j)
        ensures text[i] != '\n'
      {
        assert !OccursAt(text, "\n", i);
        assert text[i..i + 1] == [text[i]];
      }
      if j != -1 {
        SplitLinesNoNewline(text[j + 1..]);
      }
    }
  }

  lemma FindNewlineAfter(a: string, rest: string)
    requires HasNoNewline(a)
    ensures Find(a + "\n" + rest, "\n", 0) == |a|
  {
    var t := a + "\n" + rest;
    FindSpec(t, "\n", 0);
    assert OccursAt(t, "\n", |a|) by {
      assert t[|a|..|a| + 1] == "\n";
    }
    forall j | 0 <= j < |a| ensures !OccursAt(t, "\n", j) {
      assert t[j..j + 1][0] == a[j];
    }
  }

  /** Reading back what the tools write gives the lines again (an empty list reads back as one empty line). */
  lemma {:induction false} SplitSerialise(lines: seq<string>)
    requires forall k :: 0 <= k < |lines| ==> HasNoNewline(lines[k])
    ensures SplitLines(Serialise(lines)) == if lines == [] then [""] else lines
    decreases |lines|
  {
    if lines == [] {
      FindNewlineAfter("", "");
      assert Serialise(lines) == "" + "\n" + "";
    } else {
      var a := lines[0];
      var rest := if |lines| == 1 then "" else Serialise(lines[1..]);
      assert Serialise(lines) == a + "\n" + rest;
      FindNewlineAfter(a, rest);
      var t := a + "\n" + rest;
      assert t[..|a|] == a;
      assert t[|a| + 1..] == rest;
      if |lines| > 1 {
        SplitSerialise(lines[1..]);
      }
    }
  }

  lemma {:induction false} JoinLinesEnd(lines: seq<string>)
    requires lines != [] && lines[|lines| - 1] != []
    ensures |JoinLines(lines)| >= |lines[|lines| - 1]|
    ensures JoinLines(lines)[|JoinLines(lines)| - 1] == lines[|lines| - 1][|lines[|lines| - 1]| - 1]
  {
    if |lines| > 1 {
      JoinLinesEnd(lines[1..]);
    }
  }
}
