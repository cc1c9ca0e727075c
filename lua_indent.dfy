/**
  The re-indenting pass of the Lua formatter (tools/format_lua.py, `count_leading_braces`,
  `format_lines` and the change gate of `process_file`).

  `Formatted(indent, lines)` is the specification of `format_lines`: every line is
  classified, a blank line becomes empty, any other line is re-emitted as its stripped
  text behind four spaces per indentation level, and the running indentation moves by
  the line's keyword and brace counts, never below zero.
 */
module LuaIndent {
  import opened PyText
  import opened LuaTokens
  import opened LuaScanFacts

  /** One indentation level. */
  const IndentUnit := "    "

  /** Python's `max` on two integers. */
  function Max(a: int, b: int): (r: int)
    ensures r >= a && r >= b && (r == a || r == b)
  {
    if a >= b then a else b
  }

  // ---------------------------------------------------------------- count_leading_braces

  /** The number of `}` that `s` begins with. */
  function BraceRun(s: string): (n: nat)
    ensures n <= |s|
  {
    if s != [] && s[0] == '}' then 1 + BraceRun(s[1..]) else 0
  }

  /** `BraceRun` is the length of the maximal run of `}` at the start of `s`. */
  lemma {:induction false} BraceRunOfRun(s: string, n: nat)
    requires n <= |s|
    requires forall j :: 0 <= j < n ==> s[j] == '}'
    requires n == |s| || s[n] != '}'
    ensures BraceRun(s) == n
    decreases n
  {
    if n > 0 {
      assert s[1..][n - 1..] == s[n..];
      BraceRunOfRun(s[1..], n - 1);
    }
  }

  /** The run of `}` really is one, and it is maximal. */
  lemma {:induction false} BraceRunSpec(s: string)
    ensures forall j :: 0 <= j < BraceRun(s) ==> s[j] == '}'
    ensures BraceRun(s) == |s| || s[BraceRun(s)] != '}'
    decreases |s|
  {
    if s != [] && s[0] == '}' {
      BraceRunSpec(s[1..]);
    }
  }

  /** `count_leading_braces(line)` as a value: the `}` run after the leading whitespace. */
  function LeadingBraces(line: string): nat {
    BraceRun(LStrip(line))
  }

  /** `count_leading_braces(line)`. */
  method CountLeadingBraces(line: string) returns (count: nat)
    ensures count == LeadingBraces(line)
  {
    count := 0;
    var stripped := LStrip(line);
    var k := 0;
    while k < |stripped|
      invariant k <= |stripped| && count == k
      invariant forall j :: 0 <= j < k ==> stripped[j] == '}'
    {
      if stripped[k] == '}' {
        count := count + 1;
      } else {
        break;
      }
      k := k + 1;
    }
    BraceRunOfRun(stripped, count);
  }

  // ---------------------------------------------------------------- format_lines

  /** The level a non-blank line with classification `c` and `braces` leading braces is written at. */
  function LineIndent(indent: nat, c: Classification, braces: nat): nat {
    Max(indent - c.leadingKeywordDedent - braces, 0)
  }

  /** The running indentation after such a line. */
  function IndentPast(indent: nat, c: Classification, braces: nat): nat {
    Max(LineIndent(indent, c, braces) + c.openKeywords + c.openBraces
        - Max(c.closeKeywords - c.leadingKeywordDedent, 0)
        - Max(c.closeBraces - braces, 0), 0)
  }

  /** What `format_lines` emits for `line` when the running indentation is `indent`. */
  function Emit(indent: nat, line: string): string {
    var c := Classify(line);
    if c.isBlank then "" else Repeat(IndentUnit, LineIndent(indent, c, LeadingBraces(line))) + c.stripped
  }

  /** The running indentation after `line`. */
  function NextIndent(indent: nat, line: string): nat {
    var c := Classify(line);
    if c.isBlank then indent else IndentPast(indent, c, LeadingBraces(line))
  }

  /** The running indentation after all of `lines`. */
  function IndentAfter(indent: nat, lines: seq<string>): nat
    decreases |lines|
  {
    if lines == [] then indent else IndentAfter(NextIndent(indent, lines[0]), lines[1..])
  }

  /** `format_lines` from running indentation `indent`: one output line per input line. */
  function Formatted(indent: nat, lines: seq<string>): (r: seq<string>)
    ensures |r| == |lines|
    decreases |lines|
  {
    if lines == [] then [] else [Emit(indent, lines[0])] + Formatted(NextIndent(indent, lines[0]), lines[1..])
  }

  /** One more line of `format_lines`: the first output, then the rest from the next indentation. */
  lemma FormattedFrom(indent: nat, lines: seq<string>, k: nat)
    requires k < |lines|
    ensures Formatted(indent, lines[k..])
            == [Emit(indent, lines[k])] + Formatted(NextIndent(indent, lines[k]), lines[k + 1..])
  {
    assert lines[k..][1..] == lines[k + 1..];
  }

  /** How `Emit` and `NextIndent` read a line's classification and leading braces. */
  lemma EmitOf(indent: nat, line: string, c: Classification, braces: nat)
    requires c == Classify(line) && braces == LeadingBraces(line)
    ensures c.isBlank ==> Emit(indent, line) == "" && NextIndent(indent, line) == indent
    ensures !c.isBlank ==> Emit(indent, line) == Repeat(IndentUnit, LineIndent(indent, c, braces)) + c.stripped
    ensures !c.isBlank ==> NextIndent(indent, line) == IndentPast(indent, c, braces)
  {
  }

  /**
    The body of the `for line in lines` loop of `format_lines`: the line as written
    at running indentation `indent`, and the running indentation after it.
   */
  method FormatTurn(indent: nat, line: string) returns (newLine: string, next: nat)
    ensures newLine == Emit(indent, line) && next == NextIndent(indent, line)
  {
    var c := AnalyseTokens(line);
    if c.isBlank {
      EmitOf(indent, line, c, LeadingBraces(line));
      return "", indent;
    }
    var leadingBraces := CountLeadingBraces(line);
    EmitOf(indent, line, c, leadingBraces);
    var current: int := Max(indent - c.leadingKeywordDedent - leadingBraces, 0);
    newLine := Repeat(IndentUnit, current) + c.stripped;
    current := current + c.openKeywords + c.openBraces;
    current := current - Max(c.closeKeywords - c.leadingKeywordDedent, 0);
    current := current - Max(c.closeBraces - leadingBraces, 0);
    if current < 0 {
      current := 0;
    }
    assert current == IndentPast(indent, c, leadingBraces);
    next := current;
  }

  /** `format_lines(lines)`. */
  method FormatLines(lines: seq<string>) returns (formatted: seq<string>)
    ensures formatted == Formatted(0, lines)
  {
    formatted := [];
    var indent: nat := 0;
    for k := 0 to |lines|
      invariant formatted + Formatted(indent, lines[k..]) == Formatted(0, lines)
    {
      FormattedFrom(indent, lines, k);
      var newLine, next := FormatTurn(indent, lines[k]);
      formatted := formatted + [newLine];
      indent := next;
    }
    assert lines[|lines|..] == [];
  }

  // ---------------------------------------------------------------- what a line becomes

  lemma {:induction false} RepeatIndentUnit(n: nat)
    ensures |Repeat(IndentUnit, n)| == 4 * n
    ensures forall k :: 0 <= k < 4 * n ==> Repeat(IndentUnit, n)[k] == ' '
  {
    if n > 0 {
      RepeatIndentUnit(n - 1);
    }
  }

  /** Where `format_lines` writes a line and what it writes there. */
  lemma EmitSpec(indent: nat, line: string)
    ensures AllWhitespace(line) ==> Emit(indent, line) == "" && NextIndent(indent, line) == indent
    ensures !AllWhitespace(line) ==>
              var n := Max(indent - Classify(line).leadingKeywordDedent - LeadingBraces(line), 0);
              var out := Emit(indent, line);
              n <= indent
              && |out| == 4 * n + |Strip(line)|
              && (forall k :: 0 <= k < 4 * n ==> out[k] == ' ')
              && out[4 * n..] == Strip(line)
              && Strip(out) == Strip(line)
  {
    if !AllWhitespace(line) {
      var c := Classify(line);
      var n := LineIndent(indent, c, LeadingBraces(line));
      var pad := Repeat(IndentUnit, n);
      RepeatIndentUnit(n);
      StripIsCore(line);
      assert AllWhitespace(pad);
      StripPadded(pad, c.stripped);
      assert (pad + c.stripped)[4 * n..] == c.stripped;
    }
  }

  // ---------------------------------------------------------------- count_leading_braces vs the scan

  /** Every brace of a run of `}` met in code is a counted close brace. */
  lemma {:induction false} BraceRunCounted(s: string, st: ScanState)
    requires st.mode == Code
    ensures Scan(s, st).closeBraces >= st.closeBraces + BraceRun(s)
    decreases |s|
  {
    if s != [] && s[0] == '}' {
      var next := st.(closeBraces := st.closeBraces + 1,
                      leadingBraceDedent := st.leadingBraceDedent + (if st.leading then 1 else 0),
                      leading := false);
      assert StepAt(s, st) == Advance(1, next);
      BraceRunCounted(s[1..], next);
    } else {
      ScanCountsGrow(s, st);
    }
  }

  /** Leading whitespace, whatever it is, leaves the scan in code with no count changed. */
  lemma {:induction false} LeadingBracesCounted(s: string, st: ScanState)
    requires st.mode == Code
    ensures Scan(s, st).closeBraces >= st.closeBraces + BraceRun(LStrip(s))
    decreases |s|
  {
    if s != [] && IsWhitespace(s[0]) {
      var next := if IsSpaceOrTab(s[0]) then st else st.(leading := false);
      assert StepAt(s, st) == Advance(1, next);
      LeadingBracesCounted(s[1..], next);
    } else {
      BraceRunCounted(s, st);
    }
  }

  /** `count_leading_braces(line)` never exceeds the close braces `analyse_tokens` counts. */
  lemma LeadingBracesAtMostCloseBraces(line: string)
    ensures LeadingBraces(line) <= Classify(line).closeBraces
  {
    StripEmptyIffAllWhitespace(line);
    if AllWhitespace(line) {
      LStripSpec(line);
    } else {
      LeadingBracesCounted(line, Start);
    }
  }

  // ---------------------------------------------------------------- the whole pass

  /** Output line `k` is input line `k` emitted at the indentation reached after the first `k` lines. */
  lemma {:induction false} FormattedAt(indent: nat, lines: seq<string>, k: nat)
    requires k < |lines|
    ensures Formatted(indent, lines)[k] == Emit(IndentAfter(indent, lines[..k]), lines[k])
    decreases k
  {
    if k > 0 {
      FormattedAt(NextIndent(indent, lines[0]), lines[1..], k - 1);
      assert lines[1..][..k - 1] == lines[1..k];
      assert lines[..k][1..] == lines[1..k];
    }
  }

  /** Formatting a concatenation: the second part starts from where the first leaves the indentation. */
  lemma {:induction false} FormattedAppend(indent: nat, a: seq<string>, b: seq<string>)
    ensures Formatted(indent, a + b) == Formatted(indent, a) + Formatted(IndentAfter(indent, a), b)
    ensures IndentAfter(indent, a + b) == IndentAfter(IndentAfter(indent, a), b)
    decreases |a|
  {
    if a == [] {
      assert a + b == b;
    } else {
      assert (a + b)[0] == a[0];
      assert (a + b)[1..] == a[1..] + b;
      FormattedAppend(NextIndent(indent, a[0]), a[1..], b);
    }
  }

  // ---------------------------------------------------------------- idempotence

  /**
    The whitespace `strip` removes from `line` is spaces and tabs only, or the line is
    blank. (Other whitespace in those places is read differently by the scanner.)
   */
  predicate SpaceTabPadded(line: string) {
    AllWhitespace(line)
    || (AllSpaceOrTab(line[..|line| - |LStrip(line)|])
        && AllSpaceOrTab(line[|line| - (|LStrip(line)| - |Strip(line)|)..]))
  }

  lemma {:induction false} BraceRunBeforeBlanks(t: string, q: string)
    requires AllSpaceOrTab(q)
    ensures BraceRun(t + q) == BraceRun(t)
    decreases |t|
  {
    if t != [] {
      assert (t + q)[0] == t[0];
      assert (t + q)[1..] == t[1..] + q;
      BraceRunBeforeBlanks(t[1..], q);
    } else {
      assert t + q == q;
    }
  }

  /** A line padded with spaces and tabs is its stripped core between two runs of blanks. */
  lemma PaddedCore(line: string)
    requires SpaceTabPadded(line) && !AllWhitespace(line)
    ensures CoreStart(line) + |Strip(line)| <= |line|
    ensures line == line[..CoreStart(line)] + (Strip(line) + line[CoreStart(line) + |Strip(line)|..])
    ensures AllSpaceOrTab(line[..CoreStart(line)])
    ensures AllSpaceOrTab(line[CoreStart(line) + |Strip(line)|..])
    ensures AllWhitespace(line[..CoreStart(line)])
    ensures Strip(line) != [] && !IsWhitespace(Strip(line)[0]) && !IsWhitespace(Strip(line)[|Strip(line)| - 1])
  {
    StripIsCore(line);
    StripEmptyIffAllWhitespace(line);
    assert |line| - (|LStrip(line)| - |Strip(line)|) == CoreStart(line) + |Strip(line)|;
  }

  /** Re-padding the core of a padded line with blanks does not change its scan. */
  lemma RepaddedScan(pad: string, line: string)
    requires AllSpaceOrTab(pad) && SpaceTabPadded(line) && !AllWhitespace(line)
    ensures Scan(pad + Strip(line), Start).(mode := Code) == Scan(line, Start).(mode := Code)
  {
    PaddedCore(line);
    var core := Strip(line);
    var p := line[..CoreStart(line)];
    var q := line[CoreStart(line) + |core|..];
    ScanSkipsSpaceTab(pad, core, Start);
    ScanSkipsSpaceTab(p, core + q, Start);
    assert p + (core + q) == line;
    ScanIgnoresTrailingSpaceTab(core, q, Start);
  }

  /** Re-padding the core of a padded line with blanks does not change its leading braces. */
  lemma RepaddedBraces(pad: string, line: string)
    requires AllSpaceOrTab(pad) && AllWhitespace(pad) && SpaceTabPadded(line) && !AllWhitespace(line)
    ensures LeadingBraces(pad + Strip(line)) == LeadingBraces(line)
  {
    PaddedCore(line);
    var core := Strip(line);
    var p := line[..CoreStart(line)];
    var q := line[CoreStart(line) + |core|..];
    StripPadded(pad, core);
    LStripPadded(p, core + q);
    BraceRunBeforeBlanks(core, q);
  }

  /** A re-emitted line reads back as the line it came from: same classification, same leading braces. */
  lemma EmittedLineReadsSame(indent: nat, line: string)
    requires SpaceTabPadded(line) && !AllWhitespace(line)
    ensures Classify(Emit(indent, line)) == Classify(line)
    ensures LeadingBraces(Emit(indent, line)) == LeadingBraces(line)
  {
    var c := Classify(line);
    var pad := Repeat(IndentUnit, LineIndent(indent, c, LeadingBraces(line)));
    var out := pad + c.stripped;
    assert Emit(indent, line) == out;
    RepeatIndentUnit(LineIndent(indent, c, LeadingBraces(line)));
    assert AllSpaceOrTab(pad) && AllWhitespace(pad);
    PaddedCore(line);
    StripPadded(pad, c.stripped);
    StripEmptyIffAllWhitespace(out);
    RepaddedScan(pad, line);
    RepaddedBraces(pad, line);
  }

  lemma ReemitLine(i: nat, j: nat, line: string)
    requires SpaceTabPadded(line)
    ensures Emit(j, Emit(i, line)) == Emit(j, line)
    ensures NextIndent(j, Emit(i, line)) == NextIndent(j, line)
  {
    if !AllWhitespace(line) {
      EmittedLineReadsSame(i, line);
    }
  }

  /** Formatting is idempotent on lines padded with spaces and tabs only. */
  lemma {:induction false} FormattedIdempotent(indent: nat, lines: seq<string>)
    requires forall k :: 0 <= k < |lines| ==> SpaceTabPadded(lines[k])
    ensures Formatted(indent, Formatted(indent, lines)) == Formatted(indent, lines)
    decreases |lines|
  {
    if lines != [] {
      var f := Formatted(indent, lines);
      ReemitLine(indent, indent, lines[0]);
      assert f[0] == Emit(indent, lines[0]);
      assert f[1..] == Formatted(NextIndent(indent, lines[0]), lines[1..]);
      FormattedIdempotent(NextIndent(indent, lines[0]), lines[1..]);
    }
  }

  // ---------------------------------------------------------------- process_file

  lemma StripNoNewline(line: string)
    requires HasNoNewline(line)
    ensures HasNoNewline(Strip(line))
  {
    StripIsCore(line);
    forall k | 0 <= k < |Strip(line)|
      ensures Strip(line)[k] != '\n'
    {
      assert Strip(line)[k] == line[CoreStart(line) + k];
    }
  }

  lemma EmitNoNewline(indent: nat, line: string)
    requires HasNoNewline(line)
    ensures HasNoNewline(Emit(indent, line))
  {
    if !AllWhitespace(line) {
      var c := Classify(line);
      var pad := Repeat(IndentUnit, LineIndent(indent, c, LeadingBraces(line)));
      assert Emit(indent, line) == pad + c.stripped;
      RepeatIndentUnit(LineIndent(indent, c, LeadingBraces(line)));
      assert HasNoNewline(pad);
      StripNoNewline(line);
      assert HasNoNewline(c.stripped);
    }
  }

  /** No output line holds a newline when no input line does. */
  lemma {:induction false} FormattedNoNewline(indent: nat, lines: seq<string>)
    requires forall k :: 0 <= k < |lines| ==> HasNoNewline(lines[k])
    ensures forall k :: 0 <= k < |lines| ==> HasNoNewline(Formatted(indent, lines)[k])
    decreases |lines|
  {
    if lines != [] {
      var line := lines[0];
      EmitNoNewline(indent, line);
      FormattedNoNewline(NextIndent(indent, line), lines[1..]);
      var f := Formatted(indent, lines);
      assert f[1..] == Formatted(NextIndent(indent, line), lines[1..]);
      forall k | 1 <= k < |lines|
        ensures HasNoNewline(f[k])
      {
        assert f[k] == f[1..][k - 1];
      }
    }
  }

  /**
    `process_file` on a file whose text is `text`: `None` when the formatted lines
    equal the lines read (nothing is written), otherwise the text written back: the
    formatted lines joined by newlines with one final newline, which reads back as
    the formatted lines.
   */
  method ProcessFile(text: string) returns (written: Option<string>)
    ensures written.None? <==> Formatted(0, SplitLines(text)) == SplitLines(text)
    ensures written.Some? ==> written.value == Serialise(Formatted(0, SplitLines(text)))
    ensures written.Some? ==> SplitLines(written.value) == Formatted(0, SplitLines(text))
    ensures written.Some? ==> written.value != [] && written.value[|written.value| - 1] == '\n'
  {
    var originalLines := SplitLines(text);
    var formattedLines := FormatLines(originalLines);
    if formattedLines == originalLines {
      return None;
    }
    SplitLinesNoNewline(text);
    FormattedNoNewline(0, originalLines);
    SplitSerialise(formattedLines);
    written := Some(JoinLines(formattedLines) + "\n");
  }

  /**
    A file written by `process_file` is left alone by the next run, provided the
    whitespace around each line of the original was spaces and tabs only.
   */
  lemma FormatSettles(text: string)
    requires forall k :: 0 <= k < |SplitLines(text)| ==> SpaceTabPadded(SplitLines(text)[k])
    ensures var f := Formatted(0, SplitLines(text));
            Formatted(0, SplitLines(Serialise(f))) == SplitLines(Serialise(f))
  {
    var lines := SplitLines(text);
    var f := Formatted(0, lines);
    SplitLinesNoNewline(text);
    FormattedNoNewline(0, lines);
    SplitSerialise(f);
    if f == [] {
      assert Formatted(0, [""]) == [Emit(0, "")];
    } else {
      FormattedIdempotent(0, lines);
    }
  }
}
