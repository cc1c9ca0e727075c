# Lua formatting tools, modelled in Dafny

The repository ships two small maintenance tools for its Lua sources.

- `tools/format_lua.py` re-indents Lua files. It reads each line once, without a parse tree.
  - It classifies the line (`analyse_tokens`). The classifier skips quoted strings, long brackets `[==[ … ]==]` and `--` comments. It counts block-opening and block-closing keywords and braces, and notes a closing keyword or brace in leading position.
  - `format_lines` threads a running indentation through the lines. It prints every non-blank line stripped, behind four spaces per level, and prints a blank line as an empty line.
  - `process_file` writes the file back only when some line changed.
- `tools/trim_whitespace.py` removes trailing whitespace from every line and drops the empty lines at the end of a file (`trim_file`). It rewrites the file only when that changed something.

The model is split into modules:

- `PyText` (text.dfy): the Python string built-ins the tools use, ASCII only.
- `LuaTokens` (lua_tokens.dfy): the classifier.
  - `Scan`/`Classify` specify it over the rest of the line.
  - `AnalyseTokens` is the scanning loop itself, proved equal to `Classify`.
- `LuaScanFacts` (lua_scan_facts.dfy): what the classifier skips and counts.
- `LuaIndent` (lua_indent.dfy): `count_leading_braces`, `format_lines` and the change gate of `process_file`.
  - `Formatted` is the specification.
  - `FormatLines` is the loop itself.
- `LuaBlocks` (lua_blocks.dfy): block structure. For any tree of well-formed blocks, `format_lines` prints every body one level deeper than its header, its middle lines (`else`, `elseif`) and its footer, and returns to column zero.
- `LuaExample` (lua_example.dfy): how the first token of a line sets its leading dedent counts, and the worked case `if x then` / `print(1)` / `end`.
- `TrimWhitespace` (trim_whitespace.dfy): `trim_file`, and a corrected variant (see Findings).

What `format_lines` does not do: it tracks no parentheses and never splits or joins lines; it indents with four spaces per level, not tabs; it keeps trailing blank lines, as empty lines. Only `trim_whitespace.py` drops them.

## Model

| member | source | states |
|---|---|---|
| PyText.LStripSpec | tools/format_lua.py:133 | `lstrip` removes exactly a leading run of whitespace: the result is a suffix, what it removed is all whitespace, and the result is empty or starts with a non-whitespace character |
| PyText.RStripSpec | tools/trim_whitespace.py:32 | `rstrip` keeps a prefix, removes only whitespace, and the result is empty or ends in a non-whitespace character |
| PyText.StripIsCore | tools/format_lua.py:35 | `strip` is the middle of the line between an all-whitespace prefix and an all-whitespace suffix, and neither end of it is whitespace |
| PyText.StripEmptyIffAllWhitespace | tools/format_lua.py:35-37 | a line strips to the empty string exactly when it is all whitespace (the blank test of `analyse_tokens`) |
| PyText.StripPadded | tools/format_lua.py:35 | whitespace put in front of an already-stripped text is removed again by `lstrip` and by `strip` |
| PyText.RStripIdempotent | tools/trim_whitespace.py:32 | `rstrip` of an `rstrip`ped line changes nothing |
| PyText.FindSpec | tools/format_lua.py:28 | `str.find` returns the first occurrence at or after `start`, and -1 exactly when there is none |
| PyText.RepeatChar | tools/format_lua.py:27 | a one-character string repeated `n` times (the `=` run of a long-bracket closer) is `n` copies of that character |
| PyText.SplitLinesNoNewline | tools/format_lua.py:164 | the lines read from a text contain no newline |
| PyText.SplitSerialise | tools/format_lua.py:164-170 | reading back lines written as `"\n".join(lines) + "\n"` gives the same lines, and one empty line when there were none |
| PyText.JoinLinesEnd | tools/trim_whitespace.py:41 | the joined text ends with the last character of the last line |
| LuaTokens.EqualsRunSpec | tools/format_lua.py:18-20 | the `=` run after the opening `[` is as long as possible |
| LuaTokens.LongOpenLevelSpec | tools/format_lua.py:15-23 | a long bracket of level `k` opens at the start of the text exactly when `[`, `k` times `=`, `[` stands there |
| LuaTokens.MatchLongBracket | tools/format_lua.py:15-23 | `_match_long_bracket` returns no match unless a long-bracket opener starts at `start`; otherwise it returns the position just past the opener and its level |
| LuaTokens.SkipLongBracketSpec | tools/format_lua.py:26-31 | `_skip_long_bracket` goes to the end of the line when no closer of the level follows, and otherwise just past the first closer at or after `start` |
| LuaTokens.IdentLengthOfRun | tools/format_lua.py:85-87 | an identifier is read up to the first character that is not alphanumeric or `_` |
| LuaTokens.KeywordTable | tools/format_lua.py:89-100 | the keyword table: `then`/`do`/`function`/`repeat`/`else` open, `end`/`until`/`elseif`/`else` close, and `end`/`elseif`/`else`/`until` dedent only in leading position; any word ends the leading position |
| LuaTokens.StepAt | tools/format_lua.py:53-117 | every turn of the scanning loop that does not stop consumes at least one character |
| LuaTokens.ScanKeepsLeadingCountsBounded | tools/format_lua.py:89-110 | the leading keyword dedent and the leading brace dedent are each at most 1 and at most their close counts |
| LuaTokens.Classify | tools/format_lua.py:34-128 | a line is blank exactly when it is all whitespace, a blank line yields all zeros, a non-blank line yields its stripped text, and each leading count is at most 1 and at most its close count |
| LuaTokens.ScanWord | tools/format_lua.py:84-101 | the identifier branch of the loop makes exactly the step that the specification makes from that position |
| LuaTokens.ScanTurn | tools/format_lua.py:54-117 | one turn of the loop stops exactly where the specification stops, and otherwise makes the specification's step |
| LuaTokens.AnalyseTokens | tools/format_lua.py:34-128 | `analyse_tokens(line)` returns `Classify(line)` |
| LuaScanFacts.StepKeepsValidMode | tools/format_lua.py:55-83 | the scanner's string mode always holds a quote character |
| LuaScanFacts.ScanSkipsSpaceTab | tools/format_lua.py:69-71 | spaces and tabs in code change nothing |
| LuaScanFacts.ScanStopsAtComment | tools/format_lua.py:72-73 | everything after `--` in code is ignored |
| LuaScanFacts.ScanInsideString | tools/format_lua.py:55-64 | inside a string, a run of characters other than the quote, and of escapes (a `\` with the character after it), is skipped without any effect |
| LuaScanFacts.ScanSkipsString | tools/format_lua.py:55-64 | a closed quoted string, escapes included, counts nothing and does not end the leading position |
| LuaScanFacts.EscapedQuoteExample | tools/format_lua.py:55-58 | in `"a\"b"` the escaped quote does not close the string, so the whole string is skipped |
| LuaScanFacts.OpenerOpens | tools/format_lua.py:15-23 | `[`, `k` times `=`, `[` is recognised as a long-bracket opener of level `k` |
| LuaScanFacts.SkipToCloser | tools/format_lua.py:26-31 | skipping stops just past the first closer of the level |
| LuaScanFacts.ScanSkipsLongBracket | tools/format_lua.py:65-68 | a closed long bracket counts nothing, and does not end the leading position |
| LuaScanFacts.ScanUnclosedLongBracket | tools/format_lua.py:65-68 | an unclosed long bracket swallows the rest of the line |
| LuaScanFacts.ScanLeadingFrozen | tools/format_lua.py:89-110 | once the leading position has ended, the leading counts no longer change |
| LuaScanFacts.ScanCountsGrow | tools/format_lua.py:89-110 | scanning never lowers a counter |
| LuaScanFacts.ScanIgnoresTrailingSpaceTab | tools/format_lua.py:53-117 | spaces and tabs at the end of a line change none of the counts |
| LuaScanFacts.ScanIgnoresCase | tools/format_lua.py:88 | the scan is the same for a line and its lower-cased form |
| LuaScanFacts.ClassifyIgnoresCase | tools/format_lua.py:34-128 | lower-casing a line changes only the stripped text of its classification, which is lower-cased |
| LuaIndent.Max | tools/format_lua.py:151 | Python's `max`: at least both arguments and equal to one of them |
| LuaIndent.BraceRunSpec | tools/format_lua.py:134-138 | the counted run of `}` is as long as possible |
| LuaIndent.CountLeadingBraces | tools/format_lua.py:131-139 | `count_leading_braces` returns the number of `}` that the left-stripped line begins with |
| LuaIndent.FormatTurn | tools/format_lua.py:146-158 | one turn of the loop writes the line as `Emit` prints it and moves to the indentation `NextIndent` gives |
| LuaIndent.FormatLines | tools/format_lua.py:142-159 | `format_lines(lines)` returns `Formatted(0, lines)` |
| LuaIndent.EmitSpec | tools/format_lua.py:146-153 | a non-blank line is printed as `4n` spaces and then its stripped text, where `n` is at most the running indentation; a blank line is printed empty and changes nothing |
| LuaIndent.LeadingBracesAtMostCloseBraces | tools/format_lua.py:150-156 | the leading braces are counted among the line's close braces, so the brace correction is never negative |
| LuaIndent.FormattedAt | tools/format_lua.py:142-159 | output line `k` is line `k` emitted at the indentation the lines before it reached |
| LuaIndent.FormattedAppend | tools/format_lua.py:142-159 | formatting two runs of lines is formatting the first, then the second from where the first left the indentation |
| LuaIndent.EmittedLineReadsSame | tools/format_lua.py:146-153 | for a non-blank line padded with spaces and tabs, the emitted line classifies as the original line and starts with as many `}` |
| LuaIndent.FormattedIdempotent | tools/format_lua.py:142-159 | formatting formatted lines changes nothing (for lines padded with spaces and tabs) |
| LuaIndent.FormattedNoNewline | tools/format_lua.py:142-159 | formatting does not put a newline inside any line |
| LuaIndent.ProcessFile | tools/format_lua.py:162-171 | nothing is written exactly when the formatted lines equal the lines read; otherwise the text written is the formatted lines joined by `\n` plus one final `\n`, and it reads back as the formatted lines |
| LuaIndent.FormatSettles | tools/format_lua.py:162-171 | a second run over a written file writes nothing (for lines padded with spaces and tabs) |
| LuaBlocks.PrintedInPlace | tools/format_lua.py:151 | a line with no leading keyword dedent and no leading `}` is printed at the running indentation |
| LuaBlocks.PrintedBack | tools/format_lua.py:151 | when the running indentation is at least 1, a line that pulls itself back one level is printed one level back |
| LuaBlocks.IndentMoves | tools/format_lua.py:154-158 | when the running indentation is at least the line's pull-back (leading keyword dedent plus leading braces), the indentation after a non-blank line is the old one plus the line's opens minus its closes, clamped at zero |
| LuaBlocks.PlainLine | tools/format_lua.py:146-158 | a blank line or a statement is printed at the running indentation and keeps it |
| LuaBlocks.OpeningLine | tools/format_lua.py:146-158 | a line like `if c then` or `t = {` is printed at the running indentation and raises it by one |
| LuaBlocks.MiddleLine | tools/format_lua.py:146-158 | when the running indentation is at least 1, a line like `else` or `elseif c then` is printed one level back and leaves the indentation unchanged |
| LuaBlocks.ClosingLine | tools/format_lua.py:146-158 | when the running indentation is at least 1, a line like `end`, `until c` or `}` is printed one level back and lowers the indentation by one |
| LuaBlocks.FormattedIsIndented | tools/format_lua.py:142-159 | `format_lines` is a line-by-line indenter driven by the emitted text and the next indentation of each line |
| LuaBlocks.FormatterBehaves | tools/format_lua.py:146-158 | `format_lines` treats the four kinds of line as above |
| LuaBlocks.StmtIndented | tools/format_lua.py:142-159 | blocks balance: such an indenter prints a well-formed statement at its depth, bodies one level deeper, and returns to the same depth |
| LuaBlocks.ProgramFormatted | tools/format_lua.py:142-159 | for any well-formed block structure, `format_lines` prints every line stripped, four spaces per enclosing block, and ends at column zero |
| LuaExample.LeadingWordDedent | tools/format_lua.py:84-100 | when the first token of a line, after spaces and tabs, is an identifier, the leading keyword dedent is 1 exactly when the identifier, lower-cased, is `end`, `elseif`, `else` or `until`, and 0 otherwise; the leading brace dedent is 0 |
| LuaExample.LeadingOtherDedent | tools/format_lua.py:101-117 | when the first token of a line is `{`, `}`, a digit, or punctuation other than `-`, `[` and quotes, the leading keyword dedent is 0, and the leading brace dedent is 1 exactly when that token is `}` |
| LuaExample.IfLine | tools/format_lua.py:10-12 | `if x then` opens one block and is already in canonical form |
| LuaExample.PrintLine | tools/format_lua.py:84-117 | `print(1)` neither opens nor closes anything, and one level deep it prints as four spaces and `print(1)` |
| LuaExample.EndLine | tools/format_lua.py:89-99 | `end` in leading position closes one block and pulls itself back one level |
| LuaExample.ThreeLineBlock | tools/format_lua.py:142-159 | an opening line, a statement and a closing line print at depths 0, 1 and 0 |
| LuaExample.IfBlockExample | tools/format_lua.py:142-159 | `format_lines(["if x then", "print(1)", "end"])` is `["if x then", "    print(1)", "end"]` |
| TrimWhitespace.DropBlankTailSpec | tools/trim_whitespace.py:34-35 | the popping loop keeps a prefix that ends in a non-empty line, and drops only empty lines |
| TrimWhitespace.TrimLines | tools/trim_whitespace.py:32-35 | the comprehension and the popping loop compute `Trimmed(lines)` |
| TrimWhitespace.RStripEmptyIffAllWhitespace | tools/trim_whitespace.py:32 | a line `rstrip`s to empty exactly when it is all whitespace |
| TrimWhitespace.TrimmedSpec | tools/trim_whitespace.py:32-35 | every kept line is its input line without trailing whitespace, the last kept line is not empty, and every dropped line was all whitespace |
| TrimWhitespace.TrimmedIdempotent | tools/trim_whitespace.py:32-35 | trimming trimmed lines changes nothing |
| TrimWhitespace.TrimFile | tools/trim_whitespace.py:28-44 | nothing is written exactly when the trimmed lines equal the lines read; otherwise the written text is the trimmed lines joined by `\n` plus a final `\n` |
| TrimWhitespace.WrittenEnding | tools/trim_whitespace.py:40-42 | the written text ends in a non-whitespace character and one `\n`, or is a lone `\n` when no line is kept |
| TrimWhitespace.WrittenSettles | tools/trim_whitespace.py:28-44 | when some line is kept, the written text reads back as the trimmed lines and a second run writes nothing |
| TrimWhitespace.AllBlankFileNeverSettles | tools/trim_whitespace.py:34-42 | a non-empty file of blank lines is trimmed to nothing, written as `\n`, which reads back as one blank line that is trimmed again |
| TrimWhitespace.FixedContents | tools/trim_whitespace.py:40-42 | the corrected written text is empty exactly when no line is kept |
| TrimWhitespace.TrimFileFixed | tools/trim_whitespace.py:28-44 | `trim_file` with the corrected written text |
| TrimWhitespace.FixedSettles | tools/trim_whitespace.py:28-44 | with the corrected written text every file settles: it reads back as the trimmed lines and a second run writes nothing |

## Left out

- File reading and writing, the directory walk (`iter_lua_files`), argument parsing, printing and exit codes are left out. Each run is modelled on the file's text as a parameter; what would be written is returned as an `Option`.
- `splitlines` is modelled as a split on `\n` only, with no final empty piece. Python also splits on `\r`, `\r\n`, `\v`, `\f`, `\x1c`-`\x1e`, `\x85` and the Unicode line separators.
- Characters are ASCII only. `isalpha`, `isalnum`, `lower` and `isspace` on non-ASCII characters, and Unicode case mapping, are not modelled.
- `trailing_closing_braces` in `analyse_tokens` is never read, so it is not modelled.
- The leading brace count returned by `analyse_tokens` is modelled, but `format_lines` ignores it in favour of `count_leading_braces`, as the code does.
- `analyse_tokens` is modelled as one loop. Its body is the method `ScanTurn`, and its identifier branch is `ScanWord`. Their state is one `ScanState` record instead of nine locals.
- LuaIndent.FormattedIdempotent: proved only for lines whose surrounding whitespace is spaces and tabs. The scanner skips only those two, while `strip` removes every whitespace character, so another leading whitespace character can change how a re-formatted line is read.
- LuaIndent.FormatSettles: holds under the same restriction, for the same reason.
- LuaBlocks.ProgramFormatted: covers files built from well-formed blocks, in which:
  - each header opens exactly one block;
  - each middle line closes and reopens one;
  - each footer closes one;
  - each statement is neutral.
  Lines that open or close several blocks at once fall under the general `Formatted` specification only.

## Findings

| source | as written | input that shows it | evidently intended | confidence | as-written member | corrected member |
|---|---|---|---|---|---|---|
| tools/trim_whitespace.py:34-42 | when every line is blank, all lines are popped and the file is rewritten as a lone `"\n"`, which reads back as one blank line | a file containing `"\n"` (or any non-empty file of blank lines): every run rewrites it with the same `"\n"` and reports it trimmed | a file with no kept lines is written empty, so a second run finds nothing to trim | medium, not executed | TrimWhitespace.AllBlankFileNeverSettles | TrimWhitespace.FixedSettles |
