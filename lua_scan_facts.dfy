/**
  What the single-line scan of `analyse_tokens` guarantees about the text it reads:
  blanks between tokens and trailing blanks do not matter, nothing after `--` and
  nothing inside a quoted string or a long bracket is counted, identifiers are
  compared case-insensitively, the leading position is lost for good once a token is
  seen, and the counters only grow.
 */
module LuaScanFacts {
  import opened PyText
  import opened LuaTokens

  /** A string can only have been opened by a double or a single quote. */
  predicate ValidMode(st: ScanState) {
    st.mode.InString? ==> st.mode.quote == '"' || st.mode.quote == '\''
  }

  lemma StepKeepsValidMode(s: string, st: ScanState)
    requires s != [] && ValidMode(st)
    ensures StepAt(s, st).Advance? ==> ValidMode(StepAt(s, st).next)
  {
    if st.mode == Code && IsIdentStart(s[0]) {
      KeywordTable(st, Lower(s[..IdentLength(s)]));
    }
  }

  // ---------------------------------------------------------------- blanks, comments

  /** Spaces and tabs in code are skipped without any effect. */
  lemma {:induction false} ScanSkipsSpaceTab(p: string, t: string, st: ScanState)
    requires st.mode == Code && AllSpaceOrTab(p)
    ensures Scan(p + t, st) == Scan(t, st)
    decreases |p|
  {
    if p != [] {
      var s := p + t;
      assert s[0] == p[0];
      assert StepAt(s, st) == Advance(1, st);
      assert Rest(s, 1) == p[1..] + t;
      ScanSkipsSpaceTab(p[1..], t, st);
    } else {
      assert p + t == t;
    }
  }

  /** In code, `--` ends the scan: nothing after it is counted. */
  lemma ScanStopsAtComment(t: string, st: ScanState)
    requires st.mode == Code
    ensures Scan("--" + t, st) == st
  {
    var s := "--" + t;
    assert s[0] == '-' && s[1] == '-';
    assert StepAt(s, st) == Stop;
  }

  // ---------------------------------------------------------------- strings

  predicate IsQuote(c: char) {
    c == '"' || c == '\''
  }

  /**
    The body of a string quoted by `q`: a run of units, each either one character other
    than `q` and the backslash, or a backslash followed by any character (an escape).
   */
  predicate EscapedBody(body: string, q: char)
    decreases |body|
  {
    if body == [] then true
    else if body[0] == '\\' then |body| >= 2 && EscapedBody(body[2..], q)
    else body[0] != q && EscapedBody(body[1..], q)
  }

  /**
    Inside a string, a body made of plain characters and escapes is passed over: an
    escaped quote does not close the string.
   */
  lemma {:induction false} ScanInsideString(body: string, u: string, st: ScanState)
    requires st.mode.InString? && EscapedBody(body, st.mode.quote)
    ensures Scan(body + u, st) == Scan(u, st)
    decreases |body|
  {
    if body == [] {
      assert body + u == u;
    } else {
      var s := body + u;
      var k := if body[0] == '\\' then 2 else 1;
      assert s[0] == body[0];
      assert StepAt(s, st) == Advance(k, st);
      assert Rest(s, k) == body[k..] + u;
      ScanInsideString(body[k..], u, st);
    }
  }

  /**
    A quoted string is transparent: nothing in it is counted, escaped quotes included,
    and (as the scanner is written) it does not even end the leading position.
   */
  lemma ScanSkipsString(q: char, body: string, u: string, st: ScanState)
    requires st.mode == Code && IsQuote(q) && EscapedBody(body, q)
    ensures Scan([q] + body + [q] + u, st) == Scan(u, st)
  {
    var r := [q] + u;
    var inside := st.(mode := InString(q));
    assert [q] + body + [q] + u == [q] + (body + r);
    ScanOpenQuote(q, body + r, st);
    ScanInsideString(body, r, inside);
    ScanCloseQuote(q, u, inside);
    assert inside.(mode := Code) == st;
  }

  /** An opening quote in code enters the string. */
  lemma ScanOpenQuote(q: char, t: string, st: ScanState)
    requires st.mode == Code && IsQuote(q)
    ensures Scan([q] + t, st) == Scan(t, st.(mode := InString(q)))
  {
    var s := [q] + t;
    assert s[0] == q;
    assert Rest(s, 1) == t;
  }

  /** The matching quote inside a string leaves it. */
  lemma ScanCloseQuote(q: char, u: string, st: ScanState)
    requires st.mode == InString(q) && q != '\\'
    ensures Scan([q] + u, st) == Scan(u, st.(mode := Code))
  {
    var s := [q] + u;
    assert s[0] == q;
    assert Rest(s, 1) == u;
  }

  /** In `"a\"b"` the escaped quote does not close the string: the whole string is skipped. */
  lemma EscapedQuoteExample(body: string, u: string, st: ScanState)
    requires body == "a\\\"b" && st.mode == Code
    ensures body[2] == '"' && Scan(['"'] + body + ['"'] + u, st) == Scan(u, st)
  {
    var tail := body[3..];
    assert tail == ['b'] && tail[1..] == [];
    assert EscapedBody(tail, '"');
    assert body[1] == '\\' && body[1..][2..] == tail;
    assert EscapedBody(body[1..], '"');
    assert EscapedBody(body, '"');
    ScanSkipsString('"', body, u, st);
  }

  // ---------------------------------------------------------------- long brackets

  /** The opener of a long bracket: `[`, `level` times `=`, `[`. */
  function Opener(level: nat): (r: string)
    ensures |r| == level + 2
  {
    "[" + Repeat("=", level) + "["
  }

  lemma OpenerOpens(level: nat, rest: string)
    ensures LongOpenLevel(Opener(level) + rest) == Some(level)
  {
    var s := Opener(level) + rest;
    RepeatChar('=', level);
    forall j | 1 <= j <= level
      ensures s[j] == '='
    {
      assert s[j] == Repeat("=", level)[j - 1];
    }
    assert OpensLongBracket(s, level);
    LongOpenLevelSpec(s);
  }

  /** Where the first closer of the right level in `x` is known, skipping ends just past it. */
  lemma SkipToCloser(x: string, level: nat, at: nat)
    requires OccursAt(x, Closing(level), at)
    requires forall j :: 0 <= j < at ==> !OccursAt(x, Closing(level), j)
    ensures SkipLongBracket(x, 0, level) == at + level + 2
  {
    FindSpec(x, Closing(level), 0);
  }

  /**
    A long bracket is transparent: from its opener to the first closer of the same
    level nothing is counted.
   */
  lemma ScanSkipsLongBracket(level: nat, body: string, u: string, st: ScanState)
    requires st.mode == Code
    requires forall j :: 0 <= j < |body| ==> !OccursAt(body + Closing(level) + u, Closing(level), j)
    ensures Scan(Opener(level) + body + Closing(level) + u, st) == Scan(u, st)
  {
    var x := body + Closing(level) + u;
    assert Opener(level) + x == Opener(level) + body + Closing(level) + u;
    ScanOpenLong(level, x, st);
    ScanCloseLong(level, body, u, st.(mode := InLongBracket(level)));
    assert st.(mode := InLongBracket(level)).(mode := Code) == st;
  }

  /** An opener in code enters the long bracket. */
  lemma ScanOpenLong(level: nat, x: string, st: ScanState)
    requires st.mode == Code
    ensures Scan(Opener(level) + x, st) == Scan(x, st.(mode := InLongBracket(level)))
  {
    var s := Opener(level) + x;
    OpenerOpens(level, x);
    assert s[0] == '[';
    assert StepAt(s, st) == Advance(level + 2, st.(mode := InLongBracket(level)));
    assert Rest(s, level + 2) == x;
  }

  /** Inside a long bracket, everything up to and including the first closer is passed over. */
  lemma ScanCloseLong(level: nat, body: string, u: string, st: ScanState)
    requires st.mode == InLongBracket(level)
    requires forall j :: 0 <= j < |body| ==> !OccursAt(body + Closing(level) + u, Closing(level), j)
    ensures Scan(body + Closing(level) + u, st) == Scan(u, st.(mode := Code))
  {
    var x := body + Closing(level) + u;
    assert x[|body|..|body| + level + 2] == Closing(level);
    SkipToCloser(x, level, |body|);
    assert StepAt(x, st) == Advance(|body| + level + 2, st.(mode := Code));
    assert Rest(x, |body| + level + 2) == u;
  }

  /** A long bracket that is not closed on its line hides the rest of the line. */
  lemma ScanUnclosedLongBracket(level: nat, body: string, st: ScanState)
    requires st.mode == Code
    requires forall j :: 0 <= j ==> !OccursAt(body, Closing(level), j)
    ensures Scan(Opener(level) + body, st).(mode := Code) == st
  {
    var s := Opener(level) + body;
    OpenerOpens(level, body);
    assert s[0] == '[';
    var inside := st.(mode := InLongBracket(level));
    assert StepAt(s, st) == Advance(level + 2, inside);
    assert Rest(s, level + 2) == body;
    if body != [] {
      FindSpec(body, Closing(level), 0);
      assert StepAt(body, inside) == Advance(|body|, st);
      assert Rest(body, |body|) == [];
      assert Scan(body, inside) == st;
    }
  }

  // ---------------------------------------------------------------- leading position, growth

  /** Once a token has been seen the line is no longer at its leading token, and neither leading count moves. */
  lemma {:induction false} ScanLeadingFrozen(s: string, st: ScanState)
    requires !st.leading
    ensures !Scan(s, st).leading
    ensures Scan(s, st).leadingKeywordDedent == st.leadingKeywordDedent
    ensures Scan(s, st).leadingBraceDedent == st.leadingBraceDedent
    decreases |s|
  {
    if s != [] {
      if st.mode == Code && IsIdentStart(s[0]) {
        KeywordTable(st, Lower(s[..IdentLength(s)]));
      }
      var step := StepAt(s, st);
      if step.Advance? {
        ScanLeadingFrozen(Rest(s, step.consumed), step.next);
      }
    }
  }

  /** Every counter of `a` is at least the same counter of `b`. */
  predicate CountsAtLeast(a: ScanState, b: ScanState) {
    && a.openKeywords >= b.openKeywords && a.closeKeywords >= b.closeKeywords
    && a.leadingKeywordDedent >= b.leadingKeywordDedent
    && a.openBraces >= b.openBraces && a.closeBraces >= b.closeBraces
    && a.leadingBraceDedent >= b.leadingBraceDedent
  }

  /** The scan only ever increments its counters. */
  lemma {:induction false} ScanCountsGrow(s: string, st: ScanState)
    ensures CountsAtLeast(Scan(s, st), st)
    decreases |s|
  {
    if s != [] {
      if st.mode == Code && IsIdentStart(s[0]) {
        KeywordTable(st, Lower(s[..IdentLength(s)]));
      }
      var step := StepAt(s, st);
      if step.Advance? {
        ScanCountsGrow(Rest(s, step.consumed), step.next);
      }
    }
  }

  // ---------------------------------------------------------------- trailing blanks

  /** Spaces and tabs change nothing but, possibly, end a pending string or long bracket. */
  lemma {:induction false} ScanSpaceTabAnyMode(q: string, st: ScanState)
    requires AllSpaceOrTab(q) && ValidMode(st)
    ensures Scan(q, st).(mode := Code) == st.(mode := Code)
    decreases |q|
  {
    if q != [] {
      match st.mode
      case InLongBracket(level) =>
        NoCloserInBlanks(q, level);
        FindSpec(q, Closing(level), 0);
        assert StepAt(q, st) == Advance(|q|, st.(mode := Code));
        assert Rest(q, |q|) == [];
      case _ =>
        assert StepAt(q, st) == Advance(1, st);
        ScanSpaceTabAnyMode(q[1..], st);
    }
  }

  /** The closer of a long bracket begins and ends with `]`. */
  lemma ClosingEnds(level: nat)
    ensures Closing(level)[0] == ']' && Closing(level)[level + 1] == ']'
  {
  }

  lemma NoCloserInBlanks(q: string, level: nat)
    requires AllSpaceOrTab(q)
    ensures forall j :: 0 <= j ==> !OccursAt(q, Closing(level), j)
  {
    ClosingEnds(level);
    forall j | 0 <= j
      ensures !OccursAt(q, Closing(level), j)
    {
      if j + level + 2 <= |q| {
        assert q[j..j + level + 2][0] == q[j];
      }
    }
  }

  /** A closer occurs in `t` followed by blanks exactly where it occurs in `t`. */
  lemma CloserBeforeBlanks(t: string, q: string, level: nat, j: nat)
    requires AllSpaceOrTab(q)
    ensures OccursAt(t + q, Closing(level), j) <==> OccursAt(t, Closing(level), j)
  {
    var c := Closing(level);
    ClosingEnds(level);
    if j + |c| <= |t| {
      assert (t + q)[j..j + |c|] == t[j..j + |c|];
    } else if j + |c| <= |t + q| {
      assert (t + q)[j..j + |c|][|c| - 1] == q[j + |c| - 1 - |t|];
    }
  }

  /** Searching a closer in `t` followed by blanks finds what searching `t` alone finds. */
  lemma FindCloserBeforeBlanks(t: string, q: string, level: nat)
    requires AllSpaceOrTab(q)
    ensures Find(t + q, Closing(level), 0) == Find(t, Closing(level), 0)
  {
    var c := Closing(level);
    forall j: nat
      ensures OccursAt(t + q, c, j) <==> OccursAt(t, c, j)
    {
      CloserBeforeBlanks(t, q, level, j);
    }
    FindSpec(t + q, c, 0);
    FindSpec(t, c, 0);
  }

  lemma LongOpenBeforeBlanks(t: string, q: string)
    requires t != [] && AllSpaceOrTab(q)
    ensures LongOpenLevel(t + q) == LongOpenLevel(t)
  {
    var s := t + q;
    LongOpenLevelSpec(s);
    LongOpenLevelSpec(t);
    forall k: nat
      ensures OpensLongBracket(s, k) <==> OpensLongBracket(t, k)
    {
      if |t| <= k + 1 < |s| {
        assert s[k + 1] == q[k + 1 - |t|];
      }
      if OpensLongBracket(s, k) {
        forall j | 1 <= j <= k
          ensures t[j] == '='
        {
          assert s[j] == t[j];
        }
      }
    }
    if LongOpenLevel(t).Some? {
      assert LongOpenLevel(s) == LongOpenLevel(t);
    }
  }

  lemma {:induction false} IdentBeforeBlanks(t: string, q: string)
    requires AllSpaceOrTab(q)
    ensures IdentLength(t + q) == IdentLength(t)
    decreases |t|
  {
    if t != [] {
      assert (t + q)[0] == t[0];
      assert (t + q)[1..] == t[1..] + q;
      IdentBeforeBlanks(t[1..], q);
    } else {
      assert t + q == q;
    }
  }

  /** What one step over `t` followed by blanks `q` has in common with the step over `t`. */
  predicate StepsAgree(t: string, q: string, st: ScanState)
    requires t != []
  {
    && (StepAt(t + q, st).Stop? <==> StepAt(t, st).Stop?)
    && (StepAt(t, st).Advance? ==>
          var k, k' := StepAt(t, st).consumed, StepAt(t + q, st).consumed;
          StepAt(t + q, st).next == StepAt(t, st).next
          && (Rest(t + q, k') == Rest(t, k) + q
              || (Rest(t, k) == [] && AllSpaceOrTab(Rest(t + q, k')))))
  }

  lemma StepBeforeBlanksInString(t: string, q: string, st: ScanState)
    requires t != [] && AllSpaceOrTab(q) && st.mode.InString?
    ensures StepsAgree(t, q, st)
  {
    var s := t + q;
    assert s[0] == t[0];
    var k := StepAt(t, st).consumed;
    if k <= |t| {
      assert Rest(s, k) == Rest(t, k) + q;
    }
  }

  lemma StepBeforeBlanksInLongBracket(t: string, q: string, st: ScanState)
    requires t != [] && AllSpaceOrTab(q) && st.mode.InLongBracket?
    ensures StepsAgree(t, q, st)
  {
    var s := t + q;
    var level := st.mode.level;
    FindCloserBeforeBlanks(t, q, level);
    FindSpec(t, Closing(level), 0);
    var k := SkipLongBracket(t, 0, level);
    if k < |t| {
      assert Rest(s, k) == Rest(t, k) + q;
    }
  }

  lemma StepBeforeBlanksInCode(t: string, q: string, st: ScanState)
    requires t != [] && AllSpaceOrTab(q) && st.mode == Code
    ensures StepsAgree(t, q, st)
  {
    var s := t + q;
    assert s[0] == t[0];
    if |t| >= 2 {
      assert s[1] == t[1];
    } else if q != [] {
      assert s[1] == q[0];
    }
    if t[0] == '[' {
      LongOpenBeforeBlanks(t, q);
    }
    if IsIdentStart(t[0]) {
      IdentBeforeBlanks(t, q);
      assert s[..IdentLength(t)] == t[..IdentLength(t)];
    }
    if StepAt(t, st).Advance? {
      var k := StepAt(t, st).consumed;
      assert Rest(s, k) == Rest(t, k) + q;
    }
  }

  /**
    One step over `t` followed by blanks: it stops exactly when the step over `t`
    does, reaches the same state, and what is left is either what `t` leaves followed
    by the blanks, or blanks only while `t` is used up.
   */
  lemma StepBeforeBlanks(t: string, q: string, st: ScanState)
    requires t != [] && AllSpaceOrTab(q)
    ensures StepsAgree(t, q, st)
  {
    match st.mode
    case InString(_) => StepBeforeBlanksInString(t, q, st);
    case InLongBracket(_) => StepBeforeBlanksInLongBracket(t, q, st);
    case Code => StepBeforeBlanksInCode(t, q, st);
  }

  /** Trailing spaces and tabs on a line change none of the counts, nor the leading flag. */
  lemma {:induction false} ScanIgnoresTrailingSpaceTab(t: string, q: string, st: ScanState)
    requires AllSpaceOrTab(q) && ValidMode(st)
    ensures Scan(t + q, st).(mode := Code) == Scan(t, st).(mode := Code)
    decreases |t|
  {
    if t == [] {
      assert t + q == q;
      ScanSpaceTabAnyMode(q, st);
    } else {
      StepBeforeBlanks(t, q, st);
      StepKeepsValidMode(t, st);
      if StepAt(t, st).Advance? {
        var next := StepAt(t, st).next;
        var k, k' := StepAt(t, st).consumed, StepAt(t + q, st).consumed;
        if Rest(t + q, k') == Rest(t, k) + q {
          ScanIgnoresTrailingSpaceTab(Rest(t, k), q, next);
        } else {
          ScanSpaceTabAnyMode(Rest(t + q, k'), next);
        }
      }
    }
  }

  // ---------------------------------------------------------------- letter case

  /** `lower` changes letters only, into letters, and only once. */
  lemma LowerCharFacts(c: char)
    ensures !IsAsciiAlpha(c) ==> LowerChar(c) == c
    ensures IsAsciiAlpha(LowerChar(c)) == IsAsciiAlpha(c)
    ensures IsIdentStart(LowerChar(c)) == IsIdentStart(c)
    ensures IsIdentChar(LowerChar(c)) == IsIdentChar(c)
    ensures IsWhitespace(LowerChar(c)) == IsWhitespace(c)
    ensures LowerChar(LowerChar(c)) == LowerChar(c)
  {
  }

  lemma LowerSlice(s: string, i: nat, j: nat)
    requires i <= j <= |s|
    ensures Lower(s)[i..j] == Lower(s[i..j])
  {
  }

  lemma LowerTwice(s: string)
    ensures Lower(Lower(s)) == Lower(s)
  {
    forall i | 0 <= i < |s|
      ensures Lower(Lower(s))[i] == Lower(s)[i]
    {
      LowerCharFacts(s[i]);
    }
  }

  lemma {:induction false} LStripLower(s: string)
    ensures LStrip(Lower(s)) == Lower(LStrip(s))
    decreases |s|
  {
    if s != [] {
      LowerCharFacts(s[0]);
      assert Lower(s)[0] == LowerChar(s[0]);
      if IsWhitespace(s[0]) {
        assert Lower(s)[1..] == Lower(s[1..]);
        LStripLower(s[1..]);
      }
    }
  }

  lemma {:induction false} RStripLower(s: string)
    ensures RStrip(Lower(s)) == Lower(RStrip(s))
    decreases |s|
  {
    if s != [] {
      LowerCharFacts(s[|s| - 1]);
      assert Lower(s)[|s| - 1] == LowerChar(s[|s| - 1]);
      if IsWhitespace(s[|s| - 1]) {
        assert Lower(s)[..|s| - 1] == Lower(s[..|s| - 1]);
        RStripLower(s[..|s| - 1]);
      }
    }
  }

  /** Stripping and lower-casing commute. */
  lemma StripLower(s: string)
    ensures Strip(Lower(s)) == Lower(Strip(s))
  {
    LStripLower(s);
    RStripLower(LStrip(s));
  }

  lemma {:induction false} IdentIgnoresCase(s: string)
    ensures IdentLength(Lower(s)) == IdentLength(s)
    decreases |s|
  {
    if s != [] {
      LowerCharFacts(s[0]);
      assert Lower(s)[0] == LowerChar(s[0]);
      if IsIdentChar(s[0]) {
        assert Lower(s)[1..] == Lower(s[1..]);
        IdentIgnoresCase(s[1..]);
      }
    }
  }

  lemma LongOpenIgnoresCase(s: string)
    ensures LongOpenLevel(Lower(s)) == LongOpenLevel(s)
  {
    var l := Lower(s);
    LongOpenLevelSpec(s);
    LongOpenLevelSpec(l);
    forall k: nat
      ensures OpensLongBracket(l, k) <==> OpensLongBracket(s, k)
    {
      if k + 2 <= |s| {
        LowerCharFacts(s[0]);
        LowerCharFacts(s[k + 1]);
        forall j | 1 <= j <= k
          ensures l[j] == '=' <==> s[j] == '='
        {
          LowerCharFacts(s[j]);
        }
      }
    }
    if LongOpenLevel(s).Some? {
      assert LongOpenLevel(l) == LongOpenLevel(s);
    }
  }

  lemma ClosingChars(level: nat)
    ensures forall i :: 0 <= i < level + 2 ==> Closing(level)[i] == ']' || Closing(level)[i] == '='
  {
    RepeatChar('=', level);
    forall i | 1 <= i <= level
      ensures Closing(level)[i] == '='
    {
      assert Closing(level)[i] == Repeat("=", level)[i - 1];
    }
  }

  /** A closer, having no letters, occurs in the lower-cased text exactly where it occurs in the text. */
  lemma CloserIgnoresCase(s: string, level: nat, j: nat)
    ensures OccursAt(Lower(s), Closing(level), j) <==> OccursAt(s, Closing(level), j)
  {
    var c := Closing(level);
    var n := |c|;
    if j + n <= |s| {
      ClosingChars(level);
      forall i | 0 <= i < n
        ensures Lower(s)[j..j + n][i] == c[i] <==> s[j..j + n][i] == c[i]
      {
        LowerCharFacts(s[j + i]);
      }
      if s[j..j + n] == c {
        assert Lower(s)[j..j + n] == c;
      }
      if Lower(s)[j..j + n] == c {
        assert s[j..j + n] == c;
      }
    }
  }

  lemma SkipIgnoresCase(s: string, level: nat)
    ensures SkipLongBracket(Lower(s), 0, level) == SkipLongBracket(s, 0, level)
  {
    var c := Closing(level);
    forall j: nat
      ensures OccursAt(Lower(s), c, j) <==> OccursAt(s, c, j)
    {
      CloserIgnoresCase(s, level, j);
    }
    FindSpec(Lower(s), c, 0);
    FindSpec(s, c, 0);
  }

  lemma RestLower(s: string, k: nat)
    ensures Rest(Lower(s), k) == Lower(Rest(s, k))
  {
    if k <= |s| {
      LowerSlice(s, k, |s|);
    }
  }

  /** One step of the scan reads a lower-cased text exactly as the text itself. */
  lemma StepIgnoresCase(s: string, st: ScanState)
    requires s != [] && ValidMode(st)
    ensures StepAt(Lower(s), st) == StepAt(s, st)
  {
    var l := Lower(s);
    LowerCharFacts(s[0]);
    if |s| >= 2 {
      LowerCharFacts(s[1]);
    }
    match st.mode
    case InString(_) =>
    case InLongBracket(level) =>
      SkipIgnoresCase(s, level);
    case Code =>
      if s[0] == '[' {
        LongOpenIgnoresCase(s);
      }
      if IsIdentStart(s[0]) {
        var n := IdentLength(s);
        IdentIgnoresCase(s);
        LowerSlice(s, 0, n);
        LowerTwice(s[..n]);
        assert Lower(l[..n]) == Lower(s[..n]);
      }
  }

  /**
    Keywords are recognised whatever their letter case: the scan of a lower-cased text
    ends in the same state as the scan of the text.
   */
  lemma {:induction false} ScanIgnoresCase(s: string, st: ScanState)
    requires ValidMode(st)
    ensures Scan(Lower(s), st) == Scan(s, st)
    decreases |s|
  {
    if s != [] {
      var l := Lower(s);
      StepIgnoresCase(s, st);
      StepKeepsValidMode(s, st);
      var step := StepAt(s, st);
      if step.Advance? {
        var k := step.consumed;
        RestLower(s, k);
        ScanIgnoresCase(Rest(s, k), step.next);
        assert Scan(l, st) == Scan(Rest(l, k), step.next);
      }
    }
  }

  /** `analyse_tokens` of a lower-cased line: the same counts, and the lower-cased stripped text. */
  lemma ClassifyIgnoresCase(line: string)
    ensures Classify(Lower(line)) == Classify(line).(stripped := Lower(Classify(line).stripped))
  {
    StripLower(line);
    ScanIgnoresCase(line, Start);
  }
}
