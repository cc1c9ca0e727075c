/**
  Word-level facts about the Lua re-indenter (tools/format_lua.py): how the
  first token of a line, an identifier or a single punctuation character,
  sets the line's leading keyword and brace dedents; and a worked run of
  `format_lines` in which the three lines `if x then`, `print(1)` and `end`
  come out with the call indented one level and the `if` and `end` at
  column zero.
 */
module LuaExample {
  import opened PyText
  import opened LuaTokens
  import opened LuaScanFacts
  import opened LuaIndent
  import opened LuaBlocks

  /** An identifier without capitals. */
  predicate PlainWord(w: string) {
    w != [] && IsIdentStart(w[0])
    && forall j :: 0 <= j < |w| ==> IsIdentChar(w[j]) && !('A' <= w[j] <= 'Z')
  }

  /** A character the scanner counts as "any other token": punctuation or a digit. */
  predicate IsOtherChar(c: char) {
    !IsSpaceOrTab(c) && !IsQuote(c) && !IsIdentStart(c) && c !in {'-', '[', '{', '}'}
  }

  /** Text without capitals lower-cases to itself. */
  lemma LowerOfLower(s: string)
    requires forall j :: 0 <= j < |s| ==> !('A' <= s[j] <= 'Z')
    ensures Lower(s) == s
  {
  }

  /** In code, a whole identifier is read at once and counted as one lower-cased word. */
  lemma ScanWholeWord(w: string, u: string, st: ScanState)
    requires st.mode == Code && w != [] && IsIdentStart(w[0])
    requires forall j :: 0 <= j < |w| ==> IsIdentChar(w[j])
    requires u == [] || !IsIdentChar(u[0])
    ensures Scan(w + u, st) == Scan(u, CountWord(st, Lower(w)))
  {
    var s := w + u;
    IdentLengthOfRun(s, |w|);
    assert s[..|w|] == w;
    assert Rest(s, |w|) == u;
  }

  /** A word followed by a space. */
  lemma ScanWordSpace(w: string, u: string, st: ScanState)
    requires st.mode == Code && PlainWord(w)
    ensures Scan(w + " " + u, st) == Scan(u, CountWord(st, w))
    ensures CountWord(st, w).mode == Code
  {
    LowerOfLower(w);
    assert w + " " + u == w + (" " + u);
    ScanWholeWord(w, " " + u, st);
    ScanSkipsSpaceTab(" ", u, CountWord(st, w));
  }

  /** A word that ends the line. */
  lemma ScanLastWord(w: string, st: ScanState)
    requires st.mode == Code && PlainWord(w)
    ensures Scan(w, st) == CountWord(st, w)
  {
    LowerOfLower(w);
    assert w + "" == w;
    ScanWholeWord(w, "", st);
  }

  /** Once the leading token is past, punctuation and digits change nothing. */
  lemma {:induction false} ScanOthers(p: string, st: ScanState)
    requires st.mode == Code && !st.leading
    requires forall j :: 0 <= j < |p| ==> IsOtherChar(p[j])
    ensures Scan(p, st) == st
    decreases |p|
  {
    if p != [] {
      assert IsOtherChar(p[0]);
      assert st.(leading := false) == st;
      assert StepAt(p, st) == Advance(1, st);
      assert Rest(p, 1) == p[1..];
      ScanOthers(p[1..], st);
    }
  }

  /** Counting a word keeps the mode and ends the leading position. */
  lemma CountWordMode(st: ScanState, w: string)
    ensures CountWord(st, w).mode == st.mode && !CountWord(st, w).leading
  {
  }

  /** A word followed by punctuation, like a call `f(1)`. */
  lemma ScanWordOthers(w: string, p: string, st: ScanState)
    requires st.mode == Code && PlainWord(w) && (p == [] || !IsIdentChar(p[0]))
    requires forall j :: 0 <= j < |p| ==> IsOtherChar(p[j])
    ensures Scan(w + p, st) == CountWord(st, w)
  {
    LowerOfLower(w);
    ScanWholeWord(w, p, st);
    CountWordMode(st, w);
    ScanOthers(p, CountWord(st, w));
  }

  /** Three words separated by single spaces. */
  lemma ScanThreeWords(a: string, b: string, c: string, st: ScanState)
    requires st.mode == Code && PlainWord(a) && PlainWord(b) && PlainWord(c)
    ensures Scan(a + " " + b + " " + c, st) == CountWord(CountWord(CountWord(st, a), b), c)
  {
    assert a + " " + b + " " + c == a + " " + (b + " " + c);
    ScanWordSpace(a, b + " " + c, st);
    ScanWordSpace(b, c, CountWord(st, a));
    ScanLastWord(c, CountWord(CountWord(st, a), b));
  }

  /** Counting a word at the head of a line: what it does to the two leading counts. */
  lemma CountWordLeading(st: ScanState, word: string)
    requires st.leading
    ensures CountWord(st, word).leadingKeywordDedent
              == st.leadingKeywordDedent + (if word in LeadingDedentKeywords then 1 else 0)
    ensures CountWord(st, word).leadingBraceDedent == st.leadingBraceDedent
    ensures !CountWord(st, word).leading
  {
  }

  /** From a fresh line state, the first token is the identifier `w`. */
  lemma ScanFirstWord(p: string, w: string, u: string, st: ScanState)
    requires st.mode == Code && st.leading && AllSpaceOrTab(p) && w != [] && IsIdentStart(w[0])
    requires forall j :: 0 <= j < |w| ==> IsIdentChar(w[j])
    requires u == [] || !IsIdentChar(u[0])
    ensures Scan(p + w + u, st).leadingKeywordDedent
              == st.leadingKeywordDedent + (if Lower(w) in LeadingDedentKeywords then 1 else 0)
    ensures Scan(p + w + u, st).leadingBraceDedent == st.leadingBraceDedent
  {
    ScanBlanksThenWord(p, w, u, st);
    CountWordLeading(st, Lower(w));
    ScanLeadingFrozen(u, CountWord(st, Lower(w)));
  }

  /** Blanks, then a whole identifier: the scan goes on after the counted word. */
  lemma ScanBlanksThenWord(p: string, w: string, u: string, st: ScanState)
    requires st.mode == Code && AllSpaceOrTab(p) && w != [] && IsIdentStart(w[0])
    requires forall j :: 0 <= j < |w| ==> IsIdentChar(w[j])
    requires u == [] || !IsIdentChar(u[0])
    ensures Scan(p + w + u, st) == Scan(u, CountWord(st, Lower(w)))
  {
    assert p + w + u == p + (w + u);
    ScanSkipsSpaceTab(p, w + u, st);
    ScanWholeWord(w, u, st);
  }

  /**
    A line whose first token, after spaces and tabs, is the identifier `w`: the
    leading keyword dedent is one exactly when `w`, lower-cased, is `end`,
    `elseif`, `else` or `until`, and the leading brace dedent is zero.
   */
  lemma LeadingWordDedent(p: string, w: string, u: string)
    requires AllSpaceOrTab(p) && w != [] && IsIdentStart(w[0])
    requires forall j :: 0 <= j < |w| ==> IsIdentChar(w[j])
    requires u == [] || !IsIdentChar(u[0])
    ensures Scan(p + w + u, Start).leadingKeywordDedent
              == if Lower(w) in LeadingDedentKeywords then 1 else 0
    ensures Scan(p + w + u, Start).leadingBraceDedent == 0
  {
    ScanFirstWord(p, w, u, Start);
  }

  /** One step over a brace, a digit or punctuation in code. */
  lemma StepOther(s: string, st: ScanState)
    requires s != [] && st.mode == Code && (s[0] == '{' || s[0] == '}' || IsOtherChar(s[0]))
    ensures StepAt(s, st).Advance? && StepAt(s, st).consumed == 1
    ensures !StepAt(s, st).next.leading
    ensures StepAt(s, st).next.leadingKeywordDedent == st.leadingKeywordDedent
    ensures StepAt(s, st).next.leadingBraceDedent
              == st.leadingBraceDedent + (if st.leading && s[0] == '}' then 1 else 0)
  {
  }

  /** From a fresh line state, the first token is the single character `c`, not part of a word. */
  lemma ScanFirstOther(p: string, c: char, u: string, st: ScanState)
    requires st.mode == Code && st.leading && AllSpaceOrTab(p)
    requires c == '{' || c == '}' || IsOtherChar(c)
    ensures Scan(p + [c] + u, st).leadingKeywordDedent == st.leadingKeywordDedent
    ensures Scan(p + [c] + u, st).leadingBraceDedent
              == st.leadingBraceDedent + (if c == '}' then 1 else 0)
  {
    var s := [c] + u;
    assert p + [c] + u == p + s;
    ScanSkipsSpaceTab(p, s, st);
    assert s[0] == c && Rest(s, 1) == u;
    StepOther(s, st);
    ScanLeadingFrozen(u, StepAt(s, st).next);
  }

  /**
    A line whose first token, after spaces and tabs, is a brace, a digit or
    punctuation other than `-`, `[` and quotes: no leading keyword dedent, and
    a leading brace dedent of one exactly when that token is `}`.
   */
  lemma LeadingOtherDedent(p: string, c: char, u: string)
    requires AllSpaceOrTab(p) && (c == '{' || c == '}' || IsOtherChar(c))
    ensures Scan(p + [c] + u, Start).leadingKeywordDedent == 0
    ensures Scan(p + [c] + u, Start).leadingBraceDedent == if c == '}' then 1 else 0
  {
    ScanFirstOther(p, c, u, Start);
  }

  /** A line that is already stripped and does not start with `}` has no leading braces. */
  lemma StrippedLine(line: string)
    requires line != [] && !IsWhitespace(line[0]) && !IsWhitespace(line[|line| - 1]) && line[0] != '}'
    ensures !AllWhitespace(line) && Strip(line) == line && LeadingBraces(line) == 0
  {
    StripPadded("", line);
    assert "" + line == line;
  }

  /** The scan of `if x then`: one opening keyword. */
  lemma ScanIfLine(line: string, st: ScanState)
    requires line == "if x then" && st.mode == Code
    ensures Scan(line, st) == st.(leading := false, openKeywords := st.openKeywords + 1)
  {
    assert line == "if" + " " + "x" + " " + "then";
    assert PlainWord("if") && PlainWord("x") && PlainWord("then");
    ScanThreeWords("if", "x", "then", st);
    CountIfXThen(st);
  }

  /** The keywords of `if x then`: only `then` counts. */
  lemma CountIfXThen(st: ScanState)
    ensures CountWord(CountWord(CountWord(st, "if"), "x"), "then")
         == st.(leading := false, openKeywords := st.openKeywords + 1)
  {
  }

  /** The scan of `print(1)`: nothing counted. */
  lemma ScanPrintLine(line: string, st: ScanState)
    requires line == "print(1)" && st.mode == Code
    ensures Scan(line, st) == st.(leading := false)
  {
    assert line == "print" + "(1)";
    assert PlainWord("print");
    assert forall j :: 0 <= j < 3 ==> IsOtherChar("(1)"[j]);
    ScanWordOthers("print", "(1)", st);
    assert CountWord(st, "print") == st.(leading := false);
  }

  /** The scan of `end`: a closing keyword in leading position. */
  lemma ScanEndLine(line: string, st: ScanState)
    requires line == "end" && st.mode == Code && st.leading
    ensures Scan(line, st) == st.(leading := false, closeKeywords := st.closeKeywords + 1,
                                  leadingKeywordDedent := st.leadingKeywordDedent + 1)
  {
    assert PlainWord(line);
    ScanLastWord(line, st);
    assert CountWord(st, "end") == st.(leading := false, closeKeywords := st.closeKeywords + 1,
                                       leadingKeywordDedent := st.leadingKeywordDedent + 1);
  }

  /** `if x then` opens one block and nothing else. */
  lemma IfLine(line: string)
    requires line == "if x then"
    ensures KindOf(line) == Opens && Canonical(0, line) == line
  {
    ScanIfLine(line, Start);
    StrippedLine(line);
  }

  /** `print(1)` neither opens nor closes anything. */
  lemma PrintLine(line: string)
    requires line == "print(1)"
    ensures KindOf(line) == Plain && Canonical(1, line) == "    print(1)"
  {
    assert "    " + line == "    print(1)";
    assert Repeat(IndentUnit, 1) == "    ";
    ScanPrintLine(line, Start);
    StrippedLine(line);
  }

  /** `end` closes one block and pulls itself back one level. */
  lemma EndLine(line: string)
    requires line == "end"
    ensures KindOf(line) == Closes && Canonical(0, line) == line
  {
    ScanEndLine(line, Start);
    StrippedLine(line);
  }

  /** The block `a`, `b`, `c` as a statement tree. */
  function SmallBlock(a: string, b: string, c: string): Stmt {
    Block(a, [Line(b)], [], c)
  }

  lemma SmallBlockLines(a: string, b: string, c: string)
    ensures AllLines([SmallBlock(a, b, c)]) == [a, b, c]
    ensures AllPrinted(0, [SmallBlock(a, b, c)]) == [Canonical(0, a), Canonical(1, b), Canonical(0, c)]
  {
    var body := [Line(b)];
    var block := SmallBlock(a, b, c);
    assert body[1..] == [] && [block][1..] == [];
    assert AllLines(body) == [b] + [];
    assert AllLines([block]) == Lines(block) + [];
    assert Lines(block) == [a] + [b] + [] + [c];
    assert AllPrinted(1, body) == [Canonical(1, b)] + [];
    assert AllPrinted(0, [block]) == Printed(0, block) + [];
    assert Printed(0, block) == [Canonical(0, a)] + [Canonical(1, b)] + [] + [Canonical(0, c)];
  }

  /** A block of one opening line, one statement and one closing line. */
  lemma ThreeLineBlock(a: string, b: string, c: string)
    requires KindOf(a) == Opens && KindOf(b) == Plain && KindOf(c) == Closes
    ensures Formatted(0, [a, b, c]) == [Canonical(0, a), Canonical(1, b), Canonical(0, c)]
  {
    var block := SmallBlock(a, b, c);
    assert AllWellFormed(KindOf, [block]) by {
      assert AllWellFormed(KindOf, [Line(b)]);
    }
    SmallBlockLines(a, b, c);
    ProgramFormatted([block]);
  }

  /**
    `format_lines(["if x then", "print(1)", "end"])` is
    `["if x then", "    print(1)", "end"]`.
   */
  lemma IfBlockExample(a: string, b: string, c: string)
    requires a == "if x then" && b == "print(1)" && c == "end"
    ensures Formatted(0, [a, b, c]) == [a, "    print(1)", c]
  {
    IfLine(a);
    PrintLine(b);
    EndLine(c);
    ThreeLineBlock(a, b, c);
  }
}
