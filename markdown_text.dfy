/**
 * The text helpers of docai_converter.py: escaping of table cells, clean-up
 * of residual text, the heading heuristic, the per-line rendering of a text
 * block and the debug rendering of a segment list.
 *
 * Python's `\w`, `str.isupper` and `str.istitle` are taken on ASCII: only
 * ASCII letters are cased and only ASCII letters, digits and `_` are word
 * characters.
 */
module MarkdownText {
  import opened Text
  import opened Segments

  // ---------------------------------------------------------------------------
  // _escape_md
  // ---------------------------------------------------------------------------

  /** Every `|` is preceded by a backslash, so none of them splits a table cell. */
  predicate PipesEscaped(s: string) {
    forall i :: 0 <= i < |s| ==> PipeEscapedAt(s, i)
  }

  /** The character at `i` is no `|`, or one with a backslash just before it. */
  predicate PipeEscapedAt(s: string, i: int)
    requires 0 <= i < |s|
  {
    s[i] == '|' ==> i > 0 && s[i - 1] == '\\'
  }

  lemma {:induction false} ReplacePipesEscapes(s: string)
    ensures PipesEscaped(ReplaceChar(s, '|', "\\|"))
    ensures |ReplaceChar(s, '|', "\\|")| > 0 ==> ReplaceChar(s, '|', "\\|")[0] != '|'
  {
    if s != [] {
      ReplacePipesEscapes(s[1..]);
      var head: string := if s[0] == '|' then "\\|" else [s[0]];
      var tail := ReplaceChar(s[1..], '|', "\\|");
      var r := head + tail;
      assert r == ReplaceChar(s, '|', "\\|");
      forall i | 0 <= i < |r| ensures PipeEscapedAt(r, i) {
        if i >= |head| {
          assert r[i] == tail[i - |head|];
          assert PipeEscapedAt(tail, i - |head|);
          if i > |head| { assert r[i - 1] == tail[i - 1 - |head|]; }
        }
      }
    }
  }

  /** Replacing carriage returns by spaces moves no character, so escaped pipes stay escaped. */
  lemma ReplaceReturnKeepsPipes(t: string)
    requires PipesEscaped(t)
    ensures PipesEscaped(ReplaceChar(t, '\r', " "))
  {
    var u := ReplaceChar(t, '\r', " ");
    assert |" "| == 1;
    forall i | 0 <= i < |u| ensures PipeEscapedAt(u, i) {
      if u[i] == '|' {
        assert u[i] == t[i];
        assert PipeEscapedAt(t, i);
        if i > 0 { assert u[i - 1] == t[i - 1]; }
      }
    }
  }

  /** Stripping cuts only whitespace, never a backslash before a pipe. */
  lemma StripKeepsPipes(t: string)
    requires PipesEscaped(t)
    ensures PipesEscaped(Strip(t))
  {
    var r := Strip(t);
    StripSlice(t);
    var a := StripStart(t);
    forall i | 0 <= i < |r| ensures PipeEscapedAt(r, i) {
      assert r[i] == t[a + i];
      assert PipeEscapedAt(t, a + i);
      if i == 0 && a > 0 {
        assert t[..a][a - 1] == t[a - 1];
        assert IsSpace(t[a - 1]);
      }
      if i > 0 { assert r[i - 1] == t[a + i - 1]; }
    }
  }

  /** Stripping keeps a character out of a string that did not contain it. */
  lemma StripKeepsAbsent(t: string, c: char)
    requires forall i :: 0 <= i < |t| ==> t[i] != c
    ensures forall i :: 0 <= i < |Strip(t)| ==> Strip(t)[i] != c
  {
    var r := Strip(t);
    StripSlice(t);
    var a := StripStart(t);
    forall i | 0 <= i < |r| ensures r[i] != c {
      assert r[i] == t[a + i];
    }
  }

  /** _escape_md: `|` becomes `\\|`, carriage returns become spaces, then the ends are stripped. */
  function EscapeMd(s: string): string {
    Strip(ReplaceChar(ReplaceChar(s, '|', "\\|"), '\r', " "))
  }

  /**
   * What escaping guarantees: every pipe is escaped, no carriage return
   * is left, and neither end is whitespace.
   */
  lemma EscapeMdSafe(s: string)
    ensures PipesEscaped(EscapeMd(s))
    ensures forall i :: 0 <= i < |EscapeMd(s)| ==> EscapeMd(s)[i] != '\r'
    ensures EscapeMd(s) != [] ==> !IsSpace(EscapeMd(s)[0]) && !IsSpace(EscapeMd(s)[|EscapeMd(s)| - 1])
  {
    var t1 := ReplaceChar(s, '|', "\\|");
    var t := ReplaceChar(t1, '\r', " ");
    ReplacePipesEscapes(s);
    ReplaceReturnKeepsPipes(t1);
    StripKeepsPipes(t);
    StripKeepsAbsent(t, '\r');
  }

  /** Every `|` is preceded by two backslashes: escaped once, then escaped again. */
  predicate PipesDoublyEscaped(s: string) {
    forall i :: 0 <= i < |s| ==> PipeDoublyEscapedAt(s, i)
  }

  predicate PipeDoublyEscapedAt(s: string, i: int)
    requires 0 <= i < |s|
  {
    s[i] == '|' ==> i > 1 && s[i - 1] == '\\' && s[i - 2] == '\\'
  }

  /**
   * Escaping again keeps, two places before each pipe, the backslash that
   * was in front of it; only a pipe at the very start had none.
   */
  lemma {:induction false} ReplaceKeepsBackslash(t: string)
    requires forall i :: 1 <= i < |t| ==> PipeEscapedAt(t, i)
    ensures var r := ReplaceChar(t, '|', "\\|");
      forall p :: 2 <= p < |r| && r[p] == '|' ==> r[p - 2] == '\\'
    ensures var r := ReplaceChar(t, '|', "\\|");
      |r| > 1 && t[0] != '|' ==> r[1] != '|'
  {
    if t != [] {
      var t' := t[1..];
      forall i | 1 <= i < |t'| ensures PipeEscapedAt(t', i) {
        assert PipeEscapedAt(t, i + 1);
      }
      ReplaceKeepsBackslash(t');
      ReplacePipesEscapes(t');
      var head: string := if t[0] == '|' then "\\|" else [t[0]];
      var tail := ReplaceChar(t', '|', "\\|");
      var r := head + tail;
      assert r == ReplaceChar(t, '|', "\\|");
      forall p | 2 <= p < |r| && r[p] == '|' ensures r[p - 2] == '\\' {
        var k := p - |head|;
        assert tail[k] == '|';
        if k >= 2 {
          assert r[p - 2] == tail[k - 2];
        } else if k == 1 {
          assert t'[0] == '|';
          assert PipeEscapedAt(t, 1);
        }
      }
      if |r| > 1 && t[0] != '|' {
        assert r[1] == tail[0];
      }
    }
  }

  /** Escaping a text whose pipes are escaped leaves each pipe with two backslashes. */
  lemma ReplaceEscapedPipes(t: string)
    requires PipesEscaped(t)
    ensures PipesDoublyEscaped(ReplaceChar(t, '|', "\\|"))
  {
    var r := ReplaceChar(t, '|', "\\|");
    forall i | 1 <= i < |t| ensures PipeEscapedAt(t, i) {
      assert PipeEscapedAt(t, i);
    }
    ReplaceKeepsBackslash(t);
    ReplacePipesEscapes(t);
    forall p | 0 <= p < |r| ensures PipeDoublyEscapedAt(r, p) {
      assert PipeEscapedAt(r, p);
      if |t| > 0 {
        assert PipeEscapedAt(t, 0);
      }
    }
  }

  lemma ReplaceReturnKeepsDoublePipes(t: string)
    requires PipesDoublyEscaped(t)
    ensures PipesDoublyEscaped(ReplaceChar(t, '\r', " "))
  {
    var u := ReplaceChar(t, '\r', " ");
    assert |" "| == 1;
    forall i | 0 <= i < |u| ensures PipeDoublyEscapedAt(u, i) {
      if u[i] == '|' {
        assert PipeDoublyEscapedAt(t, i);
        assert u[i - 1] == t[i - 1] && u[i - 2] == t[i - 2];
      }
    }
  }

  lemma StripKeepsDoublePipes(t: string)
    requires PipesDoublyEscaped(t)
    ensures PipesDoublyEscaped(Strip(t))
  {
    var r := Strip(t);
    StripSlice(t);
    var a := StripStart(t);
    forall i | 0 <= i < |r| ensures PipeDoublyEscapedAt(r, i) {
      assert r[i] == t[a + i];
      if r[i] == '|' {
        assert PipeDoublyEscapedAt(t, a + i);
        StripKeepsNonSpace(t, a + i - 2);
        assert r[i - 1] == t[a + i - 1] && r[i - 2] == t[a + i - 2];
      }
    }
  }

  /** Stripping keeps every character that is not whitespace, in its place relative to the start. */
  lemma StripKeepsNonSpace(t: string, j: int)
    requires 0 <= j < |t| && !IsSpace(t[j])
    ensures StripStart(t) <= j < StripStart(t) + |Strip(t)| && Strip(t)[j - StripStart(t)] == t[j]
  {
    StripSlice(t);
    var a, r := StripStart(t), Strip(t);
    forall k | 0 <= k < a ensures IsSpace(t[k]) {
      assert t[..a][k] == t[k];
    }
    forall k | a + |r| <= k < |t| ensures IsSpace(t[k]) {
      assert t[a + |r|..][k - a - |r|] == t[k];
    }
  }

  /** Escaping a text whose pipes are already escaped gives every pipe two backslashes. */
  lemma EscapeEscapedDoubles(t: string)
    requires PipesEscaped(t)
    ensures PipesDoublyEscaped(EscapeMd(t))
  {
    var t1 := ReplaceChar(t, '|', "\\|");
    ReplaceEscapedPipes(t);
    ReplaceReturnKeepsDoublePipes(t1);
    StripKeepsDoublePipes(ReplaceChar(t1, '\r', " "));
  }

  lemma {:induction false} ReplaceKeepsPipe(s: string)
    requires '|' in s
    ensures '|' in ReplaceChar(s, '|', "\\|")
  {
    var r := ReplaceChar(s, '|', "\\|");
    if s[0] == '|' {
      assert r[1] == '|';
    } else {
      assert '|' in s[1..];
      ReplaceKeepsPipe(s[1..]);
      assert r == [s[0]] + ReplaceChar(s[1..], '|', "\\|");
    }
  }

  /** Escaping never loses a pipe: it only puts a backslash before it. */
  lemma EscapeKeepsPipe(s: string)
    requires '|' in s
    ensures '|' in EscapeMd(s)
  {
    var t1 := ReplaceChar(s, '|', "\\|");
    ReplaceKeepsPipe(s);
    var t := ReplaceChar(t1, '\r', " ");
    assert |" "| == 1;
    var j :| 0 <= j < |t1| && t1[j] == '|';
    assert t[j] == '|';
    StripKeepsNonSpace(t, j);
  }

  /**
   * A key-value cell is escaped once when the field is read and again when
   * the row is written, so every pipe of the field reaches the Markdown
   * with two backslashes before it.
   */
  lemma KvPipeEscapedTwice(s: string)
    ensures PipesDoublyEscaped(EscapeMd(EscapeMd(s)))
    ensures '|' in s ==> '|' in EscapeMd(EscapeMd(s))
  {
    EscapeMdSafe(s);
    EscapeEscapedDoubles(EscapeMd(s));
    if '|' in s {
      EscapeKeepsPipe(s);
      EscapeKeepsPipe(EscapeMd(s));
    }
  }

  /** Replacing a character that does not occur changes nothing. */
  lemma {:induction false} ReplaceAbsent(s: string, c: char, repl: string)
    requires forall i :: 0 <= i < |s| ==> s[i] != c
    ensures ReplaceChar(s, c, repl) == s
  {
    if s != [] {
      ReplaceAbsent(s[1..], c, repl);
    }
  }

  /** A text without pipes or carriage returns and with no whitespace at its ends escapes to itself. */
  lemma EscapeMdPlain(s: string)
    requires s != [] && !IsSpace(s[0]) && !IsSpace(s[|s| - 1])
    requires forall i :: 0 <= i < |s| ==> s[i] != '|' && s[i] != '\r'
    ensures EscapeMd(s) == s
  {
    ReplaceAbsent(s, '|', "\\|");
    ReplaceAbsent(s, '\r', " ");
    StripNoSpaceEnds(s);
  }

  lemma StripNoSpaceEnds(s: string)
    requires s != [] && !IsSpace(s[0]) && !IsSpace(s[|s| - 1])
    ensures Strip(s) == s
  {
  }

  // ---------------------------------------------------------------------------
  // _cleanup_text
  // ---------------------------------------------------------------------------

  /** `re.sub(r"(\w)-\n(\w)", r"\1\2", s)`: a hyphen at a line break between word characters is dropped. */
  function JoinHyphens(s: string): (r: string)
    ensures |r| <= |s|
    decreases |s|
  {
    if |s| >= 4 && IsWordChar(s[0]) && s[1] == '-' && s[2] == '\n' && IsWordChar(s[3]) then
      [s[0], s[3]] + JoinHyphens(s[4..])
    else if s == [] then ""
    else [s[0]] + JoinHyphens(s[1..])
  }

  /** The number of line feeds `s` starts with. */
  function NewlineRun(s: string): (k: nat)
    ensures 0 < |s| && s[0] == '\n' ==> k > 0
    ensures k <= |s| && (k < |s| ==> s[k] != '\n')
    ensures forall i :: 0 <= i < k ==> s[i] == '\n'
  {
    if s != [] && s[0] == '\n' then 1 + NewlineRun(s[1..]) else 0
  }

  /** Three line feeds start at index `i`. */
  predicate TripleAt(s: string, i: int)
    requires 0 <= i < |s| - 2
  {
    s[i] == '\n' && s[i + 1] == '\n' && s[i + 2] == '\n'
  }

  predicate NoTripleNewline(s: string) {
    forall i :: 0 <= i < |s| - 2 ==> !TripleAt(s, i)
  }

  /** `re.sub(r"\n{3,}", "\n\n", s)`: every run of three or more line feeds becomes two. */
  function CollapseBlankLines(s: string): string
    decreases |s|
  {
    if s == [] then ""
    else if s[0] == '\n' then
      var k := NewlineRun(s);
      (if k >= 3 then "\n\n" else s[..k]) + CollapseBlankLines(s[k..])
    else [s[0]] + CollapseBlankLines(s[1..])
  }

  /** Collapsing leaves no three line feeds in a row, and starts with one exactly when `s` does. */
  lemma {:induction false} CollapseNoTriple(s: string)
    ensures NoTripleNewline(CollapseBlankLines(s))
    ensures s == [] <==> CollapseBlankLines(s) == []
    ensures CollapseBlankLines(s) != [] ==> (CollapseBlankLines(s)[0] == '\n' <==> s[0] == '\n')
    decreases |s|
  {
    if s != [] && s[0] == '\n' {
      var k := NewlineRun(s);
      CollapseNoTriple(s[k..]);
      NoTripleAfterBreaks(if k >= 3 then "\n\n" else s[..k], CollapseBlankLines(s[k..]));
    } else if s != [] {
      CollapseNoTriple(s[1..]);
      NoTripleAfterChar(s[0], CollapseBlankLines(s[1..]));
    }
  }

  /** At most two line feeds in front of a text that does not start with one. */
  lemma NoTripleAfterBreaks(head: string, rest: string)
    requires |head| <= 2 && forall i :: 0 <= i < |head| ==> head[i] == '\n'
    requires NoTripleNewline(rest) && (rest != [] ==> rest[0] != '\n')
    ensures NoTripleNewline(head + rest)
  {
    var r := head + rest;
    forall i | 0 <= i < |r| - 2 ensures !TripleAt(r, i) {
      if i >= |head| {
        assert !TripleAt(rest, i - |head|);
        assert r[i] == rest[i - |head|] && r[i + 1] == rest[i + 1 - |head|] && r[i + 2] == rest[i + 2 - |head|];
      } else {
        assert r[|head|] == rest[0];
      }
    }
  }

  /** Any character in front of a text free of triple line feeds that does not start with one. */
  lemma NoTripleAfterChar(c: char, rest: string)
    requires NoTripleNewline(rest) && (c == '\n' ==> rest == [] || rest[0] != '\n')
    ensures NoTripleNewline([c] + rest)
  {
    var r := [c] + rest;
    forall i | 0 <= i < |r| - 2 ensures !TripleAt(r, i) {
      if i > 0 {
        assert r[i] == rest[i - 1] && r[i + 1] == rest[i] && r[i + 2] == rest[i + 1];
        assert !TripleAt(rest, i - 1);
      }
    }
  }

  /** Collapsing only drops line feeds: every character of the result occurs in `s`. */
  lemma {:induction false} CollapseKeepsChars(s: string)
    ensures forall i :: 0 <= i < |CollapseBlankLines(s)| ==> CollapseBlankLines(s)[i] in s
    decreases |s|
  {
    var r := CollapseBlankLines(s);
    if s != [] {
      var k := if s[0] == '\n' then NewlineRun(s) else 1;
      var head := if s[0] == '\n' && k >= 3 then "\n\n" else s[..k];
      var rest := CollapseBlankLines(s[k..]);
      CollapseKeepsChars(s[k..]);
      assert r == head + rest;
      forall i | 0 <= i < |r| ensures r[i] in s {
        if i < |head| {
          assert r[i] == s[i];
        } else {
          assert r[i] == rest[i - |head|];
          assert r[i] in s[k..];
        }
      }
    }
  }

  /** Stripping keeps a string free of three line feeds in a row. */
  lemma StripKeepsNoTriple(t: string)
    requires NoTripleNewline(t)
    ensures NoTripleNewline(Strip(t))
  {
    var r := Strip(t);
    StripSlice(t);
    var a := StripStart(t);
    forall i | 0 <= i < |r| - 2 ensures !TripleAt(r, i) {
      assert !TripleAt(t, a + i);
      assert r[i] == t[a + i] && r[i + 1] == t[a + i + 1] && r[i + 2] == t[a + i + 2];
    }
  }

  /** _cleanup_text: drop carriage returns, join hyphenated breaks, collapse blank lines, strip. */
  function CleanupText(s: string): (r: string)
    ensures forall i :: 0 <= i < |r| ==> r[i] != '\r'
    ensures NoTripleNewline(r)
    ensures r != [] ==> !IsSpace(r[0]) && !IsSpace(r[|r| - 1])
    ensures s == [] ==> r == []
  {
    if s == [] then ""
    else
      var t0 := ReplaceChar(s, '\r', "");
      var t1 := JoinHyphens(t0);
      JoinHyphensKeepsChars(t0);
      var t := CollapseBlankLines(t1);
      CollapseNoTriple(t1);
      CollapseKeepsChars(t1);
      assert forall i :: 0 <= i < |t| ==> t[i] != '\r';
      StripKeepsAbsent(t, '\r');
      StripKeepsNoTriple(t);
      Strip(t)
  }

  /** Joining hyphens only drops characters, so a character absent before is absent after. */
  lemma {:induction false} JoinHyphensKeepsChars(s: string)
    ensures forall i :: 0 <= i < |JoinHyphens(s)| ==> JoinHyphens(s)[i] in s
    decreases |s|
  {
    var r := JoinHyphens(s);
    if |s| >= 4 && IsWordChar(s[0]) && s[1] == '-' && s[2] == '\n' && IsWordChar(s[3]) {
      JoinHyphensKeepsChars(s[4..]);
      forall i | 2 <= i < |r| ensures r[i] in s {
        assert r[i] == JoinHyphens(s[4..])[i - 2];
        assert r[i] in s[4..];
      }
    } else if s != [] {
      JoinHyphensKeepsChars(s[1..]);
      forall i | 1 <= i < |r| ensures r[i] in s {
        assert r[i] == JoinHyphens(s[1..])[i - 1];
        assert r[i] in s[1..];
      }
    }
  }

  // ---------------------------------------------------------------------------
  // _is_heading_like
  // ---------------------------------------------------------------------------

  predicate IsUpperAscii(c: char) { 'A' <= c <= 'Z' }

  predicate IsLowerAscii(c: char) { 'a' <= c <= 'z' }

  predicate IsLetterAscii(c: char) { IsUpperAscii(c) || IsLowerAscii(c) }

  /** `re.sub(r"[^A-Za-z]", "", s)`. */
  function Letters(s: string): (r: string)
    ensures |r| <= |s|
    ensures forall i :: 0 <= i < |r| ==> IsLetterAscii(r[i])
    ensures (exists i :: 0 <= i < |s| && IsLetterAscii(s[i])) <==> r != []
  {
    if s == [] then ""
    else
      var rest := Letters(s[1..]);
      assert (exists i :: 0 <= i < |s[1..]| && IsLetterAscii(s[1..][i])) <==>
             (exists i :: 1 <= i < |s| && IsLetterAscii(s[i])) by {
        forall i | 1 <= i < |s| ensures s[i] == s[1..][i - 1] { }
      }
      if IsLetterAscii(s[0]) then [s[0]] + rest else rest
  }

  function CountUpper(s: string): (n: nat)
    ensures n <= |s|
  {
    if s == [] then 0 else (if IsUpperAscii(s[0]) then 1 else 0) + CountUpper(s[1..])
  }

  /**
   * `str.istitle`: an upper-case letter only after an uncased character, a
   * lower-case letter only after a cased one, and at least one cased letter.
   */
  function TitleScan(s: string, prevCased: bool, sawCased: bool): bool
    decreases |s|
  {
    if s == [] then sawCased
    else if IsUpperAscii(s[0]) then !prevCased && TitleScan(s[1..], true, true)
    else if IsLowerAscii(s[0]) then prevCased && TitleScan(s[1..], true, true)
    else TitleScan(s[1..], false, sawCased)
  }

  predicate IsTitle(s: string) {
    TitleScan(s, false, false)
  }

  /**
   * _is_heading_like: 3 to 80 characters, not ending in ".", with at least
   * one ASCII letter, and either at least 85% of the letters upper case or
   * title case with at most eight words.
   */
  function IsHeadingLike(line: string): (b: bool)
    ensures b ==> 3 <= |line| <= 80 && !EndsWith(line, ".")
    ensures b ==> exists i :: 0 <= i < |line| && IsLetterAscii(line[i])
  {
    if line == [] then false
    else if |line| < 3 || |line| > 80 then false
    else if EndsWith(line, ".") then false
    else
      var letters := Letters(line);
      if letters == [] then false
      // upper / len(letters) >= 0.85, in exact arithmetic
      else if 20 * CountUpper(letters) >= 17 * |letters| then true
      else IsTitle(line) && |Words(line)| <= 8
  }

  lemma {:induction false} CountUpperAll(s: string)
    requires forall i :: 0 <= i < |s| ==> IsUpperAscii(s[i])
    ensures CountUpper(s) == |s|
  {
    if s != [] {
      assert forall i :: 0 <= i < |s[1..]| ==> s[1..][i] == s[i + 1];
      CountUpperAll(s[1..]);
    }
  }

  lemma {:induction false} LettersOfUpper(s: string)
    requires forall i :: 0 <= i < |s| ==> !IsLowerAscii(s[i])
    ensures forall i :: 0 <= i < |Letters(s)| ==> IsUpperAscii(Letters(s)[i])
  {
    if s != [] {
      assert forall i :: 0 <= i < |s[1..]| ==> s[1..][i] == s[i + 1];
      LettersOfUpper(s[1..]);
      var rest := Letters(s[1..]);
      if IsLetterAscii(s[0]) {
        assert forall i :: 0 < i < |Letters(s)| ==> Letters(s)[i] == rest[i - 1];
      }
    }
  }

  /** A line of 3 to 80 characters with an ASCII letter, no lower-case letter and no final "." is a heading. */
  lemma UpperLineIsHeading(line: string)
    requires 3 <= |line| <= 80 && !EndsWith(line, ".")
    requires exists i :: 0 <= i < |line| && IsLetterAscii(line[i])
    requires forall i :: 0 <= i < |line| ==> !IsLowerAscii(line[i])
    ensures IsHeadingLike(line)
  {
    LettersOfUpper(line);
    CountUpperAll(Letters(line));
  }

  // ---------------------------------------------------------------------------
  // Text block lines
  // ---------------------------------------------------------------------------

  /** The characters `lstrip("•·*- ")` removes from a bullet line. */
  const BulletChars: set<char> := {'•', '·', '*', '-', ' '}

  predicate IsBullet(s: string) {
    StartsWith(s, "• ") || StartsWith(s, "· ") || StartsWith(s, "- ") || StartsWith(s, "* ")
  }

  /** One line of a text item: blank, bullet, heading or plain. */
  function RenderLine(ln: string, headerHeuristics: bool): (r: string)
    ensures r == [] <==> AllSpace(ln)
    ensures IsBullet(Strip(ln)) ==> StartsWith(r, "- ")
    ensures !IsBullet(Strip(ln)) && headerHeuristics && IsHeadingLike(Strip(ln)) ==> r == "### " + Strip(ln)
    ensures !IsBullet(Strip(ln)) && !(headerHeuristics && IsHeadingLike(Strip(ln))) ==> r == Strip(ln)
  {
    var s := Strip(ln);
    if s == [] then ""
    else if IsBullet(s) then
      var r := "- " + Strip(LStripChars(s, BulletChars));
      assert r[..2] == "- ";
      r
    else if headerHeuristics && IsHeadingLike(s) then "### " + s
    else s
  }

  /** The rendered lines of a text item, one per source line. */
  function RenderLines(lines: seq<string>, headerHeuristics: bool): (r: seq<string>)
    ensures |r| == |lines|
  {
    if lines == [] then []
    else RenderLines(lines[..|lines| - 1], headerHeuristics) + [RenderLine(lines[|lines| - 1], headerHeuristics)]
  }

  lemma {:induction false} RenderLinesAt(lines: seq<string>, headerHeuristics: bool, i: int)
    requires 0 <= i < |lines|
    ensures RenderLines(lines, headerHeuristics)[i] == RenderLine(lines[i], headerHeuristics)
  {
    if i < |lines| - 1 {
      var init := lines[..|lines| - 1];
      RenderLinesAt(init, headerHeuristics, i);
      assert init[i] == lines[i];
    }
  }

  /** The line loop of a text item. */
  method RenderTextLines(text: string, headerHeuristics: bool) returns (outLines: seq<string>)
    ensures outLines == RenderLines(SplitLines(text), headerHeuristics)
  {
    var lines := SplitLines(text);
    outLines := [];
    var i := 0;
    while i < |lines|
      invariant 0 <= i <= |lines|
      invariant outLines == RenderLines(lines[..i], headerHeuristics)
    {
      assert lines[..i + 1][..i] == lines[..i];
      var s := Strip(lines[i]);
      if |s| == 0 {
        outLines := outLines + [""];
      } else if IsBullet(s) {
        outLines := outLines + ["- " + Strip(LStripChars(s, BulletChars))];
      } else if headerHeuristics && IsHeadingLike(s) {
        outLines := outLines + ["### " + s];
      } else {
        outLines := outLines + [s];
      }
      i := i + 1;
    }
    assert lines[..i] == lines;
  }

  // ---------------------------------------------------------------------------
  // Debug spans
  // ---------------------------------------------------------------------------

  function PairRepr(g: Segment): string {
    "(" + IntToString(g.start) + ", " + IntToString(g.end) + ")"
  }

  function PairReprs(segs: seq<Segment>): (r: seq<string>)
    ensures |r| == |segs|
  {
    if segs == [] then [] else [PairRepr(segs[0])] + PairReprs(segs[1..])
  }

  /** Python's `repr` of a list of (start, end) tuples. */
  function SegsRepr(segs: seq<Segment>): string {
    "[" + Join(", ", PairReprs(segs)) + "]"
  }

  /** `<!-- spans: [...] -->`. */
  function SpansComment(segs: seq<Segment>): string {
    "<!-- spans: " + SegsRepr(segs) + " -->"
  }
}
