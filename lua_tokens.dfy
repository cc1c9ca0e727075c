/**
  The single-line lexical classifier of the Lua re-indenter (tools/format_lua.py,
  `_match_long_bracket`, `_skip_long_bracket` and `analyse_tokens`).

  `Scan` is the specification: it consumes the rest of the line from a `ScanState`
  (lexical mode, the "still at the leading token" flag and the six counters).
  `AnalyseTokens` is the scanning loop itself, over an index into the line, and is
  proved to compute `Classify`.
 */
module LuaTokens {
  import opened PyText

  const OpenKeywords: set<string> := {"then", "do", "function", "repeat"}
  const CloseKeywords: set<string> := {"end", "until"}
  const LeadingDedentKeywords: set<string> := {"end", "elseif", "else", "until"}

  /** What `analyse_tokens` returns, with its eight fields named. */
  datatype Classification = Classification(
    stripped: string,
    openKeywords: nat,
    closeKeywords: nat,
    leadingKeywordDedent: nat,
    openBraces: nat,
    closeBraces: nat,
    leadingBraceDedent: nat,
    isBlank: bool)

  const Blank := Classification("", 0, 0, 0, 0, 0, 0, true)

  /** Lexical mode inside one line: code, a quoted string, or a long bracket of some level. */
  datatype Mode = Code | InString(quote: char) | InLongBracket(level: nat)

  datatype ScanState = ScanState(
    mode: Mode,
    leading: bool,
    openKeywords: nat,
    closeKeywords: nat,
    leadingKeywordDedent: nat,
    openBraces: nat,
    closeBraces: nat,
    leadingBraceDedent: nat)

  const Start := ScanState(Code, true, 0, 0, 0, 0, 0, 0)

  // ---------------------------------------------------------------- long brackets

  /** `s` begins with a long-bracket opener of the given level: `[`, `level` times `=`, `[`. */
  predicate OpensLongBracket(s: string, level: nat) {
    level + 2 <= |s| && s[0] == '[' && s[level + 1] == '['
    && forall j :: 1 <= j <= level ==> s[j] == '='
  }

  /** The number of `=` in the run that starts at `i`. */
  function EqualsRun(s: string, i: nat): (n: nat)
    requires i <= |s|
    ensures i + n <= |s|
    decreases |s| - i
  {
    if i < |s| && s[i] == '=' then 1 + EqualsRun(s, i + 1) else 0
  }

  lemma {:induction false} EqualsRunSpec(s: string, i: nat)
    requires i <= |s|
    ensures forall j :: i <= j < i + EqualsRun(s, i) ==> s[j] == '='
    ensures i + EqualsRun(s, i) == |s| || s[i + EqualsRun(s, i)] != '='
    decreases |s| - i
  {
    if i < |s| && s[i] == '=' {
      EqualsRunSpec(s, i + 1);
    }
  }

  /** `EqualsRun` is the length of the maximal run of `=` at `i`. */
  lemma {:induction false} EqualsRunOfRun(s: string, i: nat, n: nat)
    requires i + n <= |s|
    requires forall j :: i <= j < i + n ==> s[j] == '='
    requires i + n == |s| || s[i + n] != '='
    ensures EqualsRun(s, i) == n
    decreases n
  {
    if n > 0 {
      EqualsRunOfRun(s, i + 1, n - 1);
    }
  }

  /** The level of the long-bracket opener `s` begins with, if it begins with one. */
  function LongOpenLevel(s: string): (r: Option<nat>)
    ensures r.Some? ==> r.value + 2 <= |s|
  {
    if s == [] || s[0] != '[' then None
    else
      var k := EqualsRun(s, 1);
      if 1 + k < |s| && s[1 + k] == '[' then Some(k) else None
  }

  /** `LongOpenLevel` finds the opener exactly when there is one, and its level. */
  lemma LongOpenLevelSpec(s: string)
    ensures forall k: nat :: OpensLongBracket(s, k) <==> LongOpenLevel(s) == Some(k)
  {
    forall k: nat
      ensures OpensLongBracket(s, k) <==> LongOpenLevel(s) == Some(k)
    {
      if OpensLongBracket(s, k) {
        EqualsRunOfRun(s, 1, k);
      } else if s != [] {
        EqualsRunSpec(s, 1);
      }
    }
  }

  /** Where `_match_long_bracket` leaves the scan: just past the opener, with its level. */
  datatype LongOpen = LongOpen(next: nat, level: nat)

  /** `_match_long_bracket(line, start)`. */
  method MatchLongBracket(line: string, start: nat) returns (m: Option<LongOpen>)
    requires start < |line|
    ensures m == match LongOpenLevel(line[start..])
                 case None => None
                 case Some(level) => Some(LongOpen(start + level + 2, level))
  {
    if line[start] != '[' {
      return None;
    }
    var i := start + 1;
    while i < |line| && line[i] == '='
      invariant start + 1 <= i <= |line|
      invariant forall j :: start + 1 <= j < i ==> line[j] == '='
    {
      i := i + 1;
    }
    EqualsRunOfRun(line[start..], 1, i - start - 1);
    if i < |line| && line[i] == '[' {
      return Some(LongOpen(i + 1, i - start - 1));
    }
    return None;
  }

  /** The closing delimiter of a long bracket: `]`, `level` times `=`, `]`. */
  function Closing(level: nat): (r: string)
    ensures |r| == level + 2
  {
    "]" + Repeat("=", level) + "]"
  }

  /** `_skip_long_bracket(line, start, level)`. */
  function SkipLongBracket(line: string, start: nat, level: nat): (r: nat)
    ensures r <= |line|
    ensures start < |line| ==> start < r
  {
    var closing := Closing(level);
    var idx := Find(line, closing, start);
    if idx == -1 then |line| else idx + |closing|
  }

  /**
    Skipping a long bracket ends the line when no closer of its level follows, and
    otherwise ends just past the first such closer.
   */
  lemma SkipLongBracketSpec(line: string, start: nat, level: nat)
    ensures (forall j :: start <= j ==> !OccursAt(line, Closing(level), j))
            ==> SkipLongBracket(line, start, level) == |line|
    ensures (exists j :: start <= j && OccursAt(line, Closing(level), j)) ==>
              var r := SkipLongBracket(line, start, level);
              start + level + 2 <= r
              && OccursAt(line, Closing(level), r - (level + 2))
              && forall j :: start <= j < r - (level + 2) ==> !OccursAt(line, Closing(level), j)
  {
    FindSpec(line, Closing(level), start);
  }

  lemma SkipLongBracketShift(line: string, i: nat, level: nat)
    requires i <= |line|
    ensures SkipLongBracket(line, i, level) == i + SkipLongBracket(line[i..], 0, level)
  {
    FindShift(line, Closing(level), i, 0);
  }

  // ---------------------------------------------------------------- identifiers

  predicate IsIdentStart(c: char) {
    IsAsciiAlpha(c) || c == '_'
  }

  predicate IsIdentChar(c: char) {
    IsAsciiAlnum(c) || c == '_'
  }

  /** The length of the run of identifier characters `s` begins with. */
  function IdentLength(s: string): (n: nat)
    ensures n <= |s|
  {
    if s != [] && IsIdentChar(s[0]) then 1 + IdentLength(s[1..]) else 0
  }

  /** `IdentLength` is the length of the maximal run of identifier characters. */
  lemma {:induction false} IdentLengthOfRun(s: string, n: nat)
    requires n <= |s|
    requires forall j :: 0 <= j < n ==> IsIdentChar(s[j])
    requires n == |s| || !IsIdentChar(s[n])
    ensures IdentLength(s) == n
    decreases n
  {
    if n > 0 {
      assert s[1..][n - 1..] == s[n..];
      IdentLengthOfRun(s[1..], n - 1);
    }
  }

  /** How one scanned (lower-cased) identifier changes the counters. */
  function CountWord(st: ScanState, word: string): ScanState
  {
    var st1 :=
      if st.leading && word in LeadingDedentKeywords
      then st.(leadingKeywordDedent := st.leadingKeywordDedent + 1)
      else st;
    var st2 :=
      if word == "elseif" then st1.(closeKeywords := st1.closeKeywords + 1)
      else if word == "else" then
        st1.(closeKeywords := st1.closeKeywords + 1, openKeywords := st1.openKeywords + 1)
      else if word in OpenKeywords then st1.(openKeywords := st1.openKeywords + 1)
      else if word in CloseKeywords then st1.(closeKeywords := st1.closeKeywords + 1)
      else st1;
    st2.(leading := false)
  }

  /**
    The keyword table: `then`, `do`, `function`, `repeat` and `else` open a block;
    `end`, `until`, `elseif` and `else` close one; `end`, `elseif`, `else` and `until`
    count as a leading dedent while no other token has been seen; any other word
    only ends the leading position.
   */
  lemma KeywordTable(st: ScanState, word: string)
    ensures CountWord(st, word).openKeywords == st.openKeywords
              + (if word in {"then", "do", "function", "repeat", "else"} then 1 else 0)
    ensures CountWord(st, word).closeKeywords == st.closeKeywords
              + (if word in {"end", "until", "elseif", "else"} then 1 else 0)
    ensures CountWord(st, word).leadingKeywordDedent == st.leadingKeywordDedent
              + (if st.leading && word in {"end", "elseif", "else", "until"} then 1 else 0)
    ensures CountWord(st, word) == st.(openKeywords := CountWord(st, word).openKeywords,
                                       closeKeywords := CountWord(st, word).closeKeywords,
                                       leadingKeywordDedent := CountWord(st, word).leadingKeywordDedent,
                                       leading := false)
  {
  }

  // ---------------------------------------------------------------- the scan

  /** What is left of `s` after `k` characters (an escape may step past the end). */
  function Rest(s: string, k: int): (r: string)
    requires 0 <= k
    ensures |r| == if k <= |s| then |s| - k else 0
  {
    if k <= |s| then s[k..] else []
  }

  /** What one turn of the scanning loop does: stop at a comment, or consume `consumed` characters. */
  datatype Step = Stop | Advance(consumed: nat, next: ScanState)

  /** One turn of the scanning loop at the head of the rest `s` of the line. */
  function StepAt(s: string, st: ScanState): (r: Step)
    requires s != []
    ensures r.Advance? ==> r.consumed >= 1
  {
    var c := s[0];
    match st.mode
    case InString(q) =>
      if c == '\\' then Advance(2, st)
      else if c == q then Advance(1, st.(mode := Code))
      else Advance(1, st)
    case InLongBracket(level) =>
      Advance(SkipLongBracket(s, 0, level), st.(mode := Code))
    case Code =>
      if IsSpaceOrTab(c) then Advance(1, st)
      else if c == '-' && |s| >= 2 && s[1] == '-' then Stop
      else if c == '"' || c == '\'' then Advance(1, st.(mode := InString(c)))
      else if c == '[' && LongOpenLevel(s).Some? then
        var level := LongOpenLevel(s).value;
        Advance(level + 2, st.(mode := InLongBracket(level)))
      else if IsIdentStart(c) then
        var n := IdentLength(s);
        Advance(n, CountWord(st, Lower(s[..n])))
      else if c == '{' then
        Advance(1, st.(openBraces := st.openBraces + 1, leading := false))
      else if c == '}' then
        Advance(1, st.(closeBraces := st.closeBraces + 1,
                       leadingBraceDedent := st.leadingBraceDedent + (if st.leading then 1 else 0),
                       leading := false))
      else Advance(1, st.(leading := false))
  }

  /** The scan of `analyse_tokens` over the rest `s` of the line, from state `st`. */
  function Scan(s: string, st: ScanState): ScanState
    decreases |s|
  {
    if s == [] then st
    else match StepAt(s, st)
      case Stop => st
      case Advance(k, next) => Scan(Rest(s, k), next)
  }

  /**
    What the scan keeps true: once the leading token is past, neither leading count moves;
    each is at most one and is backed by a counted close keyword or close brace.
   */
  predicate LeadingCountsBounded(st: ScanState) {
    && (st.leading ==> st.leadingKeywordDedent == 0 && st.leadingBraceDedent == 0)
    && st.leadingKeywordDedent <= 1 && st.leadingKeywordDedent <= st.closeKeywords
    && st.leadingBraceDedent <= 1 && st.leadingBraceDedent <= st.closeBraces
  }

  lemma StepKeepsLeadingCountsBounded(s: string, st: ScanState)
    requires s != [] && LeadingCountsBounded(st)
    ensures StepAt(s, st).Advance? ==> LeadingCountsBounded(StepAt(s, st).next)
  {
    if st.mode == Code && IsIdentStart(s[0]) {
      KeywordTable(st, Lower(s[..IdentLength(s)]));
    }
  }

  lemma {:induction false} ScanKeepsLeadingCountsBounded(s: string, st: ScanState)
    requires LeadingCountsBounded(st)
    ensures LeadingCountsBounded(Scan(s, st))
    decreases |s|
  {
    if s != [] {
      StepKeepsLeadingCountsBounded(s, st);
      if StepAt(s, st).Advance? {
        ScanKeepsLeadingCountsBounded(Rest(s, StepAt(s, st).consumed), StepAt(s, st).next);
      }
    }
  }

  /** `analyse_tokens(line)` as a value. */
  function Classify(line: string): (c: Classification)
    ensures c.isBlank <==> AllWhitespace(line)
    ensures c.isBlank ==> c == Blank
    ensures !c.isBlank ==> c.stripped == Strip(line) && c.stripped != []
    ensures c.leadingKeywordDedent <= 1 && c.leadingKeywordDedent <= c.closeKeywords
    ensures c.leadingBraceDedent <= 1 && c.leadingBraceDedent <= c.closeBraces
  {
    StripEmptyIffAllWhitespace(line);
    var stripped := Strip(line);
    if stripped == [] then Blank
    else
      var f := Scan(line, Start);
      ScanKeepsLeadingCountsBounded(line, Start);
      Classification(stripped, f.openKeywords, f.closeKeywords, f.leadingKeywordDedent,
                     f.openBraces, f.closeBraces, f.leadingBraceDedent, false)
  }

  // ---------------------------------------------------------------- the loop

  /** A turn of the loop that stops at index `i` ends the scan there. */
  lemma ScanStopAt(line: string, i: nat, st: ScanState)
    requires i < |line| && StepAt(line[i..], st) == Stop
    ensures Scan(Rest(line, i), st) == st
  {
  }

  /** A turn of the loop that moves from index `i` to index `j` is a step of the scan. */
  lemma ScanAdvanceAt(line: string, i: nat, j: nat, st: ScanState, next: ScanState)
    requires i < j && i < |line| && StepAt(line[i..], st) == Advance(j - i, next)
    ensures Scan(Rest(line, j), next) == Scan(Rest(line, i), st)
  {
    var s := line[i..];
    if j <= |line| {
      assert s[j - i..] == line[j..];
    }
  }

  /**
    The identifier branch of a turn in code: the inner loop reads the word, and its
    lower-cased form moves the keyword counters.
   */
  method ScanWord(line: string, i: nat, st: ScanState) returns (j: nat, next: ScanState)
    requires i < |line| && st.mode == Code && IsIdentStart(line[i])
    ensures i < j && StepAt(line[i..], st) == Advance(j - i, next)
  {
    var length := |line|;
    ghost var s := line[i..];
    assert s[0] == line[i];
    var start := i;
    j := i;
    while j < length && IsIdentChar(line[j])
      invariant start <= j <= length
      invariant forall k :: start <= k < j ==> IsIdentChar(line[k])
    {
      j := j + 1;
    }
    IdentLengthOfRun(s, j - start);
    assert s[..j - start] == line[start..j];
    var word := Lower(line[start..j]);
    var leadingKeywordDedent, openKeywords, closeKeywords :=
      st.leadingKeywordDedent, st.openKeywords, st.closeKeywords;
    if st.leading && word in LeadingDedentKeywords {
      leadingKeywordDedent := leadingKeywordDedent + 1;
    }
    if word == "elseif" {
      closeKeywords := closeKeywords + 1;
    } else if word == "else" {
      closeKeywords := closeKeywords + 1;
      openKeywords := openKeywords + 1;
    } else if word in OpenKeywords {
      openKeywords := openKeywords + 1;
    } else if word in CloseKeywords {
      closeKeywords := closeKeywords + 1;
    }
    next := st.(leadingKeywordDedent := leadingKeywordDedent,
                 openKeywords := openKeywords,
                 closeKeywords := closeKeywords,
                 leading := false);
  }

  /**
    One turn of the `while i < length` loop of `analyse_tokens` at index `i`: either it
    reaches a `--` comment (`stop`), or it moves on to index `j` with the counters,
    the string / long-bracket mode and the leading flag updated to `next`.
   */
  method ScanTurn(line: string, i: nat, st: ScanState) returns (stop: bool, j: nat, next: ScanState)
    requires i < |line|
    ensures stop <==> StepAt(line[i..], st).Stop?
    ensures !stop ==> i < j && StepAt(line[i..], st) == Advance(j - i, next)
  {
    var length := |line|;
    var ch := line[i];
    ghost var s := line[i..];
    assert s[0] == ch;
    match st.mode {
      case InString(quote) =>
        if ch == '\\' {
          return false, i + 2, st;
        }
        if ch == quote {
          return false, i + 1, st.(mode := Code);
        }
        return false, i + 1, st;
      case InLongBracket(level) =>
        SkipLongBracketShift(line, i, level);
        return false, SkipLongBracket(line, i, level), st.(mode := Code);
      case Code =>
    }
    if IsSpaceOrTab(ch) {
      return false, i + 1, st;
    }
    if i + 1 < length {
      assert s[1] == line[i + 1];
    }
    if ch == '-' && i + 1 < length && line[i + 1] == '-' {
      return true, i, st;
    }
    if ch == '"' || ch == '\'' {
      return false, i + 1, st.(mode := InString(ch));
    }
    if ch == '[' {
      var m := MatchLongBracket(line, i);
      if m.Some? {
        var after, eq := m.value.next, m.value.level;
        return false, after, st.(mode := InLongBracket(eq));
      }
    }
    if IsIdentStart(ch) {
      j, next := ScanWord(line, i, st);
      return false, j, next;
    }
    if ch == '{' {
      return false, i + 1, st.(openBraces := st.openBraces + 1, leading := false);
    }
    if ch == '}' {
      var leadingBraceDedent := st.leadingBraceDedent;
      if st.leading {
        leadingBraceDedent := leadingBraceDedent + 1;
      }
      return false, i + 1, st.(closeBraces := st.closeBraces + 1,
                               leadingBraceDedent := leadingBraceDedent,
                               leading := false);
    }
    return false, i + 1, st.(leading := false);
  }

  /**
    `analyse_tokens(line)`: the loop over the line's characters, whose scanner state
    (the counters, `in_string`, `long_string_eq` and `leading`) is held in one
    `ScanState` record.
   */
  method AnalyseTokens(line: string) returns (c: Classification)
    ensures c == Classify(line)
  {
    var stripped := Strip(line);
    if stripped == [] {
      return Blank;
    }
    var i := 0;
    var length := |line|;
    var st := Start;
    while i < length
      invariant 0 <= i
      invariant Scan(Rest(line, i), st) == Scan(line, Start)
      decreases length - i
    {
      var stop, j, next := ScanTurn(line, i, st);
      if stop {
        ScanStopAt(line, i, st);
        break;
      }
      ScanAdvanceAt(line, i, j, st, next);
      i, st := j, next;
    }
    return Classification(stripped, st.openKeywords, st.closeKeywords, st.leadingKeywordDedent,
                          st.openBraces, st.closeBraces, st.leadingBraceDedent, false);
  }
}
