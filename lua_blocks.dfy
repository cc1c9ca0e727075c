/**
  Block structure and the Lua re-indenter (tools/format_lua.py, `format_lines`).

  A line is sorted by what the formatter reads from it: how far it pulls itself back
  (its leading keyword and leading braces) and how it moves the indentation of the
  lines that follow (opens minus closes). Nesting opening, middle and closing lines
  around bodies of such lines gives a block; for any block structure the formatter
  prints every body one level deeper than its header, middles and footer, and the
  indentation comes back to where it started.

  The balance proof is done once for any line-by-line indenter that treats the four
  kinds of line this way (`Behaves`), and then applied to `format_lines`.
 */
module LuaBlocks {
  import opened PyText
  import opened LuaTokens
  import opened LuaIndent

  /** How far a non-blank line pulls itself back. */
  function Dedent(line: string): nat {
    Classify(line).leadingKeywordDedent + LeadingBraces(line)
  }

  /** How a non-blank line moves the indentation of the lines after it. */
  function Delta(line: string): int {
    var c := Classify(line);
    c.openKeywords + c.openBraces - c.closeKeywords - c.closeBraces
  }

  /**
    The kinds of line: a blank line or a statement (`Plain`), a line that opens a block
    like `if c then` or `t = {` (`Opens`), a line at its block's level inside it like
    `else` or `elseif c then` (`Continues`), a line that closes a block like `end`,
    `until c` or `}` (`Closes`), and anything else.
   */
  datatype Kind = Plain | Opens | Continues | Closes | Other

  function KindOf(line: string): Kind {
    if AllWhitespace(line) then Plain else ShiftKind(Dedent(line), Delta(line))
  }

  /** The kind of a non-blank line that pulls itself back `back` levels and moves the rest by `shift`. */
  function ShiftKind(back: nat, shift: int): Kind {
    if back == 0 then (if shift == 0 then Plain else if shift == 1 then Opens else Other)
    else if back == 1 then (if shift == 0 then Continues else if shift == -1 then Closes else Other)
    else Other
  }

  /** How a line is printed at depth `d`. */
  function Canonical(d: nat, line: string): string {
    if AllWhitespace(line) then "" else Repeat(IndentUnit, d) + Strip(line)
  }

  // ---------------------------------------------------------------- format_lines, line by line

  /** A line that does not pull itself back is printed at the running indentation. */
  lemma PrintedInPlace(r: nat, line: string)
    requires Dedent(line) == 0
    ensures LineIndent(r, Classify(line), LeadingBraces(line)) == r
  {
  }

  /** A line that pulls itself back one level is printed one level back. */
  lemma PrintedBack(r: nat, line: string)
    requires Dedent(line) == 1 && r >= 1
    ensures LineIndent(r, Classify(line), LeadingBraces(line)) == r - 1
  {
  }

  /**
    After a non-blank line met at running indentation `r` (at least its `Dedent`), the
    indentation moves by the line's `Delta`, never below column zero: the closes that the
    line's leading keyword and braces already took back are not taken twice.
   */
  lemma IndentMoves(r: nat, line: string)
    requires !AllWhitespace(line) && r >= Dedent(line)
    ensures NextIndent(r, line) == Max(r + Delta(line), 0)
  {
    var c := Classify(line);
    var braces := LeadingBraces(line);
    LeadingBracesAtMostCloseBraces(line);
    assert LineIndent(r, c, braces) == r - Dedent(line);
    assert Max(c.closeKeywords - c.leadingKeywordDedent, 0) == c.closeKeywords - c.leadingKeywordDedent;
    assert Max(c.closeBraces - braces, 0) == c.closeBraces - braces;
  }

  /** A blank line or a statement is printed at the running indentation, which it keeps. */
  lemma PlainLine(r: nat, line: string)
    requires KindOf(line) == Plain
    ensures Emit(r, line) == Canonical(r, line) && NextIndent(r, line) == r
  {
    if !AllWhitespace(line) {
      PrintedInPlace(r, line);
      IndentMoves(r, line);
    }
  }

  /** An opening line is printed at the running indentation and raises it by one. */
  lemma OpeningLine(r: nat, line: string)
    requires KindOf(line) == Opens
    ensures Emit(r, line) == Canonical(r, line) && NextIndent(r, line) == r + 1
  {
    PrintedInPlace(r, line);
    IndentMoves(r, line);
  }

  /** A middle line is printed one level back and leaves the indentation as it was. */
  lemma MiddleLine(r: nat, line: string)
    requires KindOf(line) == Continues && r >= 1
    ensures Emit(r, line) == Canonical(r - 1, line) && NextIndent(r, line) == r
  {
    PrintedBack(r, line);
    IndentMoves(r, line);
  }

  /** A closing line is printed one level back and lowers the indentation by one. */
  lemma ClosingLine(r: nat, line: string)
    requires KindOf(line) == Closes && r >= 1
    ensures Emit(r, line) == Canonical(r - 1, line) && NextIndent(r, line) == r - 1
  {
    PrintedBack(r, line);
    IndentMoves(r, line);
  }

  // ---------------------------------------------------------------- any line-by-line indenter

  /** The output of an indenter that emits `emit(r, line)` and moves to `next(r, line)`, line by line. */
  function Indented(emit: (nat, string) -> string, next: (nat, string) -> nat,
                    r: nat, lines: seq<string>): (out: seq<string>)
    ensures |out| == |lines|
    decreases |lines|
  {
    if lines == [] then [] else [emit(r, lines[0])] + Indented(emit, next, next(r, lines[0]), lines[1..])
  }

  /** The running indentation such an indenter reaches after `lines`. */
  function Reached(next: (nat, string) -> nat, r: nat, lines: seq<string>): nat
    decreases |lines|
  {
    if lines == [] then r else Reached(next, next(r, lines[0]), lines[1..])
  }

  /** `format_lines` is such an indenter. */
  lemma {:induction false} FormattedIsIndented(r: nat, lines: seq<string>)
    ensures Formatted(r, lines) == Indented(Emit, NextIndent, r, lines)
    ensures IndentAfter(r, lines) == Reached(NextIndent, r, lines)
    decreases |lines|
  {
    if lines != [] {
      FormattedIsIndented(NextIndent(r, lines[0]), lines[1..]);
    }
  }

  /** Indenting two runs of lines one after the other. */
  lemma {:induction false} IndentedAppend(emit: (nat, string) -> string, next: (nat, string) -> nat,
                                          r: nat, a: seq<string>, b: seq<string>)
    ensures Indented(emit, next, r, a + b) == Indented(emit, next, r, a) + Indented(emit, next, Reached(next, r, a), b)
    ensures Reached(next, r, a + b) == Reached(next, Reached(next, r, a), b)
    decreases |a|
  {
    if a == [] {
      assert a + b == b;
    } else {
      assert (a + b)[0] == a[0];
      assert (a + b)[1..] == a[1..] + b;
      IndentedAppend(emit, next, next(r, a[0]), a[1..], b);
    }
  }

  /** One line. */
  lemma IndentedOne(emit: (nat, string) -> string, next: (nat, string) -> nat, r: nat, line: string)
    ensures Indented(emit, next, r, [line]) == [emit(r, line)]
    ensures Reached(next, r, [line]) == next(r, line)
  {
    assert [line][1..] == [];
  }

  /** An indenter that treats the four kinds of line as `format_lines` does. */
  ghost predicate Behaves(kind: string -> Kind, emit: (nat, string) -> string, next: (nat, string) -> nat) {
    && (forall r: nat, line :: kind(line) == Plain ==> emit(r, line) == Canonical(r, line) && next(r, line) == r)
    && (forall r: nat, line :: kind(line) == Opens ==> emit(r, line) == Canonical(r, line) && next(r, line) == r + 1)
    && (forall r: nat, line :: kind(line) == Continues && r >= 1 ==>
          emit(r, line) == Canonical(r - 1, line) && next(r, line) == r)
    && (forall r: nat, line :: kind(line) == Closes && r >= 1 ==>
          emit(r, line) == Canonical(r - 1, line) && next(r, line) == r - 1)
  }

  /** `format_lines` treats the four kinds of line as described. */
  lemma FormatterBehaves()
    ensures Behaves(KindOf, Emit, NextIndent)
  {
    forall r: nat, line | KindOf(line) == Plain
      ensures Emit(r, line) == Canonical(r, line) && NextIndent(r, line) == r
    {
      PlainLine(r, line);
    }
    forall r: nat, line | KindOf(line) == Opens
      ensures Emit(r, line) == Canonical(r, line) && NextIndent(r, line) == r + 1
    {
      OpeningLine(r, line);
    }
    forall r: nat, line | KindOf(line) == Continues && r >= 1
      ensures Emit(r, line) == Canonical(r - 1, line) && NextIndent(r, line) == r
    {
      MiddleLine(r, line);
    }
    forall r: nat, line | KindOf(line) == Closes && r >= 1
      ensures Emit(r, line) == Canonical(r - 1, line) && NextIndent(r, line) == r - 1
    {
      ClosingLine(r, line);
    }
  }

  // ---------------------------------------------------------------- blocks

  datatype Stmt =
    | Line(text: string)
    | Block(header: string, body: seq<Stmt>, clauses: seq<Clause>, footer: string)

  /** A middle line such as `else` and the body after it. */
  datatype Clause = Clause(middle: string, body: seq<Stmt>)

  /** Every line of the tree has the kind its place calls for. */
  predicate WellFormed(kind: string -> Kind, s: Stmt)
    decreases s, 0
  {
    match s
    case Line(text) => kind(text) == Plain
    case Block(header, body, clauses, footer) =>
      kind(header) == Opens && kind(footer) == Closes && AllWellFormed(kind, body) && ClausesWellFormed(kind, clauses)
  }

  predicate AllWellFormed(kind: string -> Kind, ss: seq<Stmt>)
    decreases ss, 1
  {
    forall i :: 0 <= i < |ss| ==> WellFormed(kind, ss[i])
  }

  predicate ClausesWellFormed(kind: string -> Kind, cs: seq<Clause>)
    decreases cs, 1
  {
    forall i :: 0 <= i < |cs| ==> kind(cs[i].middle) == Continues && AllWellFormed(kind, cs[i].body)
  }

  /** The source lines of a statement, as they stand. */
  function Lines(s: Stmt): seq<string>
    decreases s, 0
  {
    match s
    case Line(text) => [text]
    case Block(header, body, clauses, footer) =>
      [header] + AllLines(body) + ClauseLines(clauses) + [footer]
  }

  function AllLines(ss: seq<Stmt>): seq<string>
    decreases ss, 1
  {
    if ss == [] then [] else Lines(ss[0]) + AllLines(ss[1..])
  }

  function ClauseLines(cs: seq<Clause>): seq<string>
    decreases cs, 1
  {
    if cs == [] then [] else [cs[0].middle] + AllLines(cs[0].body) + ClauseLines(cs[1..])
  }

  /** The lines of a statement printed at depth `d`, bodies one level deeper. */
  function Printed(d: nat, s: Stmt): seq<string>
    decreases s, 0
  {
    match s
    case Line(text) => [Canonical(d, text)]
    case Block(header, body, clauses, footer) =>
      [Canonical(d, header)] + AllPrinted(d + 1, body) + ClausesPrinted(d, clauses) + [Canonical(d, footer)]
  }

  function AllPrinted(d: nat, ss: seq<Stmt>): seq<string>
    decreases ss, 1
  {
    if ss == [] then [] else Printed(d, ss[0]) + AllPrinted(d, ss[1..])
  }

  function ClausesPrinted(d: nat, cs: seq<Clause>): seq<string>
    decreases cs, 1
  {
    if cs == [] then []
    else [Canonical(d, cs[0].middle)] + AllPrinted(d + 1, cs[0].body) + ClausesPrinted(d, cs[1..])
  }

  /** Indenting `x` then `y`, given what each gives on its own. */
  lemma Chain(emit: (nat, string) -> string, next: (nat, string) -> nat,
              d: nat, x: seq<string>, y: seq<string>, px: seq<string>, py: seq<string>, dx: nat, dy: nat)
    requires Indented(emit, next, d, x) == px && Reached(next, d, x) == dx
    requires Indented(emit, next, dx, y) == py && Reached(next, dx, y) == dy
    ensures Indented(emit, next, d, x + y) == px + py && Reached(next, d, x + y) == dy
  {
    IndentedAppend(emit, next, d, x, y);
  }

  /** One line that the indenter prints as `p` and after which it is at `r'`. */
  lemma Single(emit: (nat, string) -> string, next: (nat, string) -> nat,
               r: nat, line: string, p: string, r': nat)
    requires emit(r, line) == p && next(r, line) == r'
    ensures Indented(emit, next, r, [line]) == [p] && Reached(next, r, [line]) == r'
  {
    IndentedOne(emit, next, r, line);
  }

  /**
    Blocks balance: an indenter that `Behaves` prints a well-formed statement met at
    depth `d` at depth `d` with its bodies one level deeper, and leaves the indentation at `d`.
   */
  lemma {:induction false} StmtIndented(kind: string -> Kind, emit: (nat, string) -> string, next: (nat, string) -> nat,
                                        d: nat, s: Stmt)
    requires Behaves(kind, emit, next) && WellFormed(kind, s)
    ensures Indented(emit, next, d, Lines(s)) == Printed(d, s)
    ensures Reached(next, d, Lines(s)) == d
    decreases s, 0
  {
    match s
    case Line(text) =>
      Single(emit, next, d, text, Canonical(d, text), d);
    case Block(header, body, clauses, footer) =>
      var a := [header];
      var b := AllLines(body);
      var c := ClauseLines(clauses);
      var pa := [Canonical(d, header)];
      var pb := AllPrinted(d + 1, body);
      var pc := ClausesPrinted(d, clauses);
      Single(emit, next, d, header, Canonical(d, header), d + 1);
      AllIndented(kind, emit, next, d + 1, body);
      ClausesIndented(kind, emit, next, d, clauses);
      Single(emit, next, d + 1, footer, Canonical(d, footer), d);
      Chain(emit, next, d, a, b, pa, pb, d + 1, d + 1);
      Chain(emit, next, d, a + b, c, pa + pb, pc, d + 1, d + 1);
      Chain(emit, next, d, a + b + c, [footer], pa + pb + pc, [Canonical(d, footer)], d + 1, d);
  }

  lemma {:induction false} AllIndented(kind: string -> Kind, emit: (nat, string) -> string, next: (nat, string) -> nat,
                                       d: nat, ss: seq<Stmt>)
    requires Behaves(kind, emit, next) && AllWellFormed(kind, ss)
    ensures Indented(emit, next, d, AllLines(ss)) == AllPrinted(d, ss)
    ensures Reached(next, d, AllLines(ss)) == d
    decreases ss, 1
  {
    if ss != [] {
      StmtIndented(kind, emit, next, d, ss[0]);
      AllIndented(kind, emit, next, d, ss[1..]);
      Chain(emit, next, d, Lines(ss[0]), AllLines(ss[1..]), Printed(d, ss[0]), AllPrinted(d, ss[1..]), d, d);
    }
  }

  /** One middle line and the body after it, inside a block whose body is at depth `d + 1`. */
  lemma {:induction false} ClauseIndented(kind: string -> Kind, emit: (nat, string) -> string, next: (nat, string) -> nat,
                                          d: nat, c: Clause)
    requires Behaves(kind, emit, next) && kind(c.middle) == Continues && AllWellFormed(kind, c.body)
    ensures Indented(emit, next, d + 1, [c.middle] + AllLines(c.body))
         == [Canonical(d, c.middle)] + AllPrinted(d + 1, c.body)
    ensures Reached(next, d + 1, [c.middle] + AllLines(c.body)) == d + 1
    decreases c, 0
  {
    Single(emit, next, d + 1, c.middle, Canonical(d, c.middle), d + 1);
    AllIndented(kind, emit, next, d + 1, c.body);
    Chain(emit, next, d + 1, [c.middle], AllLines(c.body), [Canonical(d, c.middle)], AllPrinted(d + 1, c.body), d + 1, d + 1);
  }

  /** The middles and bodies of a block whose body is at depth `d + 1`. */
  lemma {:induction false} ClausesIndented(kind: string -> Kind, emit: (nat, string) -> string, next: (nat, string) -> nat,
                                           d: nat, cs: seq<Clause>)
    requires Behaves(kind, emit, next) && ClausesWellFormed(kind, cs)
    ensures Indented(emit, next, d + 1, ClauseLines(cs)) == ClausesPrinted(d, cs)
    ensures Reached(next, d + 1, ClauseLines(cs)) == d + 1
    decreases cs, 1
  {
    if cs != [] {
      var c, rest := cs[0], cs[1..];
      var x, px := [c.middle] + AllLines(c.body), [Canonical(d, c.middle)] + AllPrinted(d + 1, c.body);
      assert ClauseLines(cs) == x + ClauseLines(rest);
      assert ClausesPrinted(d, cs) == px + ClausesPrinted(d, rest);
      assert ClausesWellFormed(kind, rest);
      ClauseIndented(kind, emit, next, d, c);
      ClausesIndented(kind, emit, next, d, rest);
      Chain(emit, next, d + 1, x, ClauseLines(rest), px, ClausesPrinted(d, rest), d + 1, d + 1);
    }
  }

  /**
    `format_lines` on a well-formed file: every line comes out stripped and indented
    four spaces per enclosing block, and the indentation returns to column zero.
   */
  lemma ProgramFormatted(ss: seq<Stmt>)
    requires AllWellFormed(KindOf, ss)
    ensures Formatted(0, AllLines(ss)) == AllPrinted(0, ss)
    ensures IndentAfter(0, AllLines(ss)) == 0
  {
    FormatterBehaves();
    AllIndented(KindOf, Emit, NextIndent, 0, ss);
    FormattedIsIndented(0, AllLines(ss));
  }
}
