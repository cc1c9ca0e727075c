/**
  tools/trim_whitespace.py: `trim_file` strips the trailing whitespace of every line,
  drops the empty lines at the end, and rewrites the file only when that changed the
  lines, as the trimmed lines joined by "\n" plus a final "\n".
 */
module TrimWhitespace {
  import opened PyText

  /** `[line.rstrip() for line in lines]`. */
  function RStripEach(lines: seq<string>): (r: seq<string>)
    ensures |r| == |lines|
  {
    seq(|lines|, i requires 0 <= i < |lines| => RStrip(lines[i]))
  }

  /** What `while trimmed and trimmed[-1] == "": trimmed.pop()` leaves. */
  function DropBlankTail(lines: seq<string>): (r: seq<string>)
    ensures |r| <= |lines|
    decreases |lines|
  {
    if lines != [] && lines[|lines| - 1] == [] then DropBlankTail(lines[..|lines| - 1]) else lines
  }

  /** The popping loop keeps a prefix, ends on a non-empty line, and only drops empty lines. */
  lemma {:induction false} DropBlankTailSpec(lines: seq<string>)
    ensures DropBlankTail(lines) == lines[..|DropBlankTail(lines)|]
    ensures DropBlankTail(lines) == [] || DropBlankTail(lines)[|DropBlankTail(lines)| - 1] != []
    ensures forall i :: |DropBlankTail(lines)| <= i < |lines| ==> lines[i] == []
    decreases |lines|
  {
    if lines != [] && lines[|lines| - 1] == [] {
      var front := lines[..|lines| - 1];
      DropBlankTailSpec(front);
      assert front[..|DropBlankTail(lines)|] == lines[..|DropBlankTail(lines)|];
    }
  }

  /** The lines `trim_file` keeps, as a value. */
  function Trimmed(lines: seq<string>): seq<string> {
    DropBlankTail(RStripEach(lines))
  }

  /** Lines 32-35 of `trim_file`: the comprehension, then the popping loop. */
  method TrimLines(lines: seq<string>) returns (trimmed: seq<string>)
    ensures trimmed == Trimmed(lines)
  {
    trimmed := RStripEach(lines);
    while trimmed != [] && trimmed[|trimmed| - 1] == []
      invariant DropBlankTail(trimmed) == Trimmed(lines)
      decreases |trimmed|
    {
      trimmed := trimmed[..|trimmed| - 1];
    }
  }

  /** `rstrip` gives the empty string exactly for an all-whitespace line. */
  lemma RStripEmptyIffAllWhitespace(s: string)
    ensures RStrip(s) == [] <==> AllWhitespace(s)
  {
    RStripSpec(s);
    if RStrip(s) == [] {
      assert s[0..] == s;
    }
  }

  /**
    What `trim_file` keeps: line `i` is the input line `i` without its trailing whitespace
    (a prefix of it, ending in a non-whitespace character or empty), the last kept line
    is not empty, and every line it drops is all whitespace.
   */
  lemma TrimmedSpec(lines: seq<string>)
    ensures |Trimmed(lines)| <= |lines|
    ensures forall i :: 0 <= i < |Trimmed(lines)| ==> Trimmed(lines)[i] == RStrip(lines[i])
    ensures forall i :: 0 <= i < |Trimmed(lines)| ==>
              && Trimmed(lines)[i] == lines[i][..|Trimmed(lines)[i]|]
              && AllWhitespace(lines[i][|Trimmed(lines)[i]|..])
              && (Trimmed(lines)[i] == [] || !IsWhitespace(Trimmed(lines)[i][|Trimmed(lines)[i]| - 1]))
    ensures Trimmed(lines) == [] || Trimmed(lines)[|Trimmed(lines)| - 1] != []
    ensures forall i :: |Trimmed(lines)| <= i < |lines| ==> AllWhitespace(lines[i])
  {
    var r := Trimmed(lines);
    var each := RStripEach(lines);
    DropBlankTailSpec(each);
    forall i | 0 <= i < |r|
      ensures r[i] == RStrip(lines[i])
      ensures r[i] == lines[i][..|r[i]|] && AllWhitespace(lines[i][|r[i]|..])
      ensures r[i] == [] || !IsWhitespace(r[i][|r[i]| - 1])
    {
      assert r[i] == each[i];
      RStripSpec(lines[i]);
    }
    forall i | |r| <= i < |lines|
      ensures AllWhitespace(lines[i])
    {
      assert each[i] == [];
      RStripEmptyIffAllWhitespace(lines[i]);
    }
  }

  /** Trimming trimmed lines changes nothing. */
  lemma TrimmedIdempotent(lines: seq<string>)
    ensures Trimmed(Trimmed(lines)) == Trimmed(lines)
  {
    var r := Trimmed(lines);
    TrimmedSpec(lines);
    forall i | 0 <= i < |r|
      ensures RStripEach(r)[i] == r[i]
    {
      RStripIdempotent(lines[i]);
    }
    assert RStripEach(r) == r;
  }

  /** A prefix of a line without a newline has none either. */
  lemma TrimmedNoNewline(text: string)
    ensures forall k :: 0 <= k < |Trimmed(SplitLines(text))| ==> HasNoNewline(Trimmed(SplitLines(text))[k])
  {
    var lines := SplitLines(text);
    SplitLinesNoNewline(text);
    TrimmedSpec(lines);
    forall k | 0 <= k < |Trimmed(lines)|
      ensures HasNoNewline(Trimmed(lines)[k])
    {
      var t := Trimmed(lines)[k];
      forall j | 0 <= j < |t|
        ensures t[j] != '\n'
      {
        assert t[j] == lines[k][j];
      }
    }
  }

  /**
    `trim_file(path)` on the file's text, as written: `None` when it returns False
    without writing, `Some(w)` when it writes `w` and returns True.
   */
  method TrimFile(text: string) returns (written: Option<string>)
    ensures written.None? <==> Trimmed(SplitLines(text)) == SplitLines(text)
    ensures written.Some? ==> written.value == Serialise(Trimmed(SplitLines(text)))
    ensures written.Some? ==> |written.value| >= 1 && written.value[|written.value| - 1] == '\n'
  {
    var lines := SplitLines(text);
    var trimmed := TrimLines(lines);
    if trimmed == lines {
      return None;
    }
    written := Some(JoinLines(trimmed) + "\n");
  }

  /**
    What `trim_file` writes ends in a non-whitespace character followed by exactly one
    "\n", unless every line was blank, when it writes a lone "\n".
   */
  lemma WrittenEnding(text: string)
    ensures var t := Trimmed(SplitLines(text));
            var w := Serialise(t);
            if t == [] then w == "\n"
            else |w| >= 2 && w[|w| - 1] == '\n' && !IsWhitespace(w[|w| - 2])
  {
    var t := Trimmed(SplitLines(text));
    TrimmedSpec(SplitLines(text));
    if t != [] {
      JoinLinesEnd(t);
    }
  }

  /**
    Where the text has a non-blank line, writing settles it: reading the written text
    back gives the trimmed lines, and trimming those changes nothing, so a second run
    does not write.
   */
  lemma WrittenSettles(text: string)
    requires Trimmed(SplitLines(text)) != []
    ensures SplitLines(Serialise(Trimmed(SplitLines(text)))) == Trimmed(SplitLines(text))
    ensures Trimmed(SplitLines(Serialise(Trimmed(SplitLines(text)))))
         == SplitLines(Serialise(Trimmed(SplitLines(text))))
  {
    TrimmedNoNewline(text);
    SplitSerialise(Trimmed(SplitLines(text)));
    TrimmedIdempotent(SplitLines(text));
  }

  /**
    A file whose lines are all blank never settles: `trim_file` trims them all away,
    writes a lone "\n", and reading that back gives one blank line again, so every run
    rewrites the file and reports it trimmed.
   */
  lemma AllBlankFileNeverSettles(text: string)
    requires SplitLines(text) != []
    requires forall i :: 0 <= i < |SplitLines(text)| ==> AllWhitespace(SplitLines(text)[i])
    ensures Trimmed(SplitLines(text)) == [] != SplitLines(text)
    ensures Serialise(Trimmed(SplitLines(text))) == "\n"
    ensures SplitLines("\n") == [""] && Trimmed([""]) == [] != [""]
  {
    var lines := SplitLines(text);
    TrimmedSpec(lines);
    if Trimmed(lines) != [] {
      var k := |Trimmed(lines)| - 1;
      RStripEmptyIffAllWhitespace(lines[k]);
    }
    SplitSerialise([]);
    assert Serialise([]) == "\n";
    TrimmedSpec([""]);
    RStripEmptyIffAllWhitespace("");
    assert RStripEach([""]) == [""];
  }

  /** The corrected contents: the trimmed lines, with a final "\n" only after a line. */
  function FixedContents(trimmed: seq<string>): (r: string)
    ensures r == [] <==> trimmed == []
  {
    if trimmed == [] then [] else JoinLines(trimmed) + "\n"
  }

  /** `trim_file` with the corrected contents. */
  method TrimFileFixed(text: string) returns (written: Option<string>)
    ensures written.None? <==> Trimmed(SplitLines(text)) == SplitLines(text)
    ensures written.Some? ==> written.value == FixedContents(Trimmed(SplitLines(text)))
  {
    var lines := SplitLines(text);
    var trimmed := TrimLines(lines);
    if trimmed == lines {
      return None;
    }
    if trimmed == [] {
      written := Some("");
    } else {
      written := Some(JoinLines(trimmed) + "\n");
    }
  }

  /**
    With the corrected contents every file settles: reading the written text back gives
    the trimmed lines, and a second run does not write.
   */
  lemma FixedSettles(text: string)
    ensures SplitLines(FixedContents(Trimmed(SplitLines(text)))) == Trimmed(SplitLines(text))
    ensures Trimmed(SplitLines(FixedContents(Trimmed(SplitLines(text)))))
         == SplitLines(FixedContents(Trimmed(SplitLines(text))))
  {
    var t := Trimmed(SplitLines(text));
    if t != [] {
      WrittenSettles(text);
    } else {
      assert SplitLines([]) == [];
      assert RStripEach([]) == [];
    }
  }
}
