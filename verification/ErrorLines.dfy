/** Finding the Lua error in a console message: the whole text is tried first, then its lines, cut at
    CR, LF or CRLF. The test of a single line is any function; the source's is a set of regular
    expressions. */
module ErrorLines {
  import opened Text
  import Words

  predicate IsNewline(c: char) {
    c == '\r' || c == '\n'
  }

  lemma NewlinesListed(c: char)
    ensures IsNewline(c) <==> c in "\r\n"
  {
    var listed := "\r\n";
    assert listed[0] == '\r' && listed[1] == '\n';
  }

  /** std::string::find_first_of("\r\n", from), with |s| for npos. */
  function LineEnd(s: string, from: nat): (end: nat)
    requires from <= |s|
    ensures from <= end <= |s|
    ensures end < |s| ==> IsNewline(s[end])
    ensures forall i :: from <= i < end ==> !IsNewline(s[i])
    decreases |s| - from
  {
    if from == |s| || IsNewline(s[from]) then from else LineEnd(s, from + 1)
  }

  /** Where the scan goes on after the line that ends at `end`: behind a CRLF pair or a single character. */
  function NextStart(s: string, end: nat): (next: nat)
    requires end < |s|
    ensures end < next <= |s|
  {
    if end + 1 < |s| && s[end] == '\r' && s[end + 1] == '\n' then end + 2 else end + 1
  }

  /** The lines the scan visits from a position on, empty ones included. */
  function Visited(s: string, from: nat): seq<string>
    requires from <= |s|
    decreases |s| - from
  {
    var end := LineEnd(s, from);
    [s[from..end]] + (if end == |s| then [] else Visited(s, NextStart(s, end)))
  }

  /** Plain splitting: every single CR or LF ends a line. */
  function SplitEach(s: string, from: nat): seq<string>
    requires from <= |s|
    decreases |s| - from
  {
    var end := LineEnd(s, from);
    [s[from..end]] + (if end == |s| then [] else SplitEach(s, end + 1))
  }

  /** The result of the test on the first line that passes it. */
  function FirstError(lines: seq<string>, test: string -> Option<string>): Option<string> {
    if lines == [] then None
    else if test(lines[0]).Some? then test(lines[0])
    else FirstError(lines[1..], test)
  }

  /** It succeeds exactly when some line passes, and then reports the earliest such line. */
  lemma {:induction false} FirstErrorIsFirst(lines: seq<string>, test: string -> Option<string>, k: nat)
    requires k < |lines| && test(lines[k]).Some?
    ensures exists i :: 0 <= i <= k && FirstError(lines, test) == test(lines[i]) && test(lines[i]).Some?
                        && forall j :: 0 <= j < i ==> test(lines[j]).None?
  {
    if test(lines[0]).None? {
      FirstErrorIsFirst(lines[1..], test, k - 1);
      var i :| 0 <= i <= k - 1 && FirstError(lines[1..], test) == test(lines[1..][i]) && test(lines[1..][i]).Some?
               && forall j :: 0 <= j < i ==> test(lines[1..][j]).None?;
      assert lines[1..][i] == lines[i + 1];
      forall j | 0 <= j < i + 1 ensures test(lines[j]).None? {
        if j > 0 {
          assert lines[j] == lines[1..][j - 1];
        }
      }
    }
  }

  lemma {:induction false} NoErrorNoLine(lines: seq<string>, test: string -> Option<string>)
    requires forall k :: 0 <= k < |lines| ==> test(lines[k]).None?
    ensures FirstError(lines, test).None?
  {
    if lines != [] {
      NoErrorNoLine(lines[1..], test);
    }
  }

  function NonEmpty(lines: seq<string>): seq<string> {
    if lines == [] then [] else (if lines[0] == [] then [] else [lines[0]]) + NonEmpty(lines[1..])
  }

  lemma {:induction false} EmptyLinesDoNotMatter(lines: seq<string>, test: string -> Option<string>)
    requires test([]).None?
    ensures FirstError(NonEmpty(lines), test) == FirstError(lines, test)
  {
    if lines != [] {
      EmptyLinesDoNotMatter(lines[1..], test);
      if lines[0] == [] {
        assert NonEmpty(lines) == NonEmpty(lines[1..]);
      } else {
        assert NonEmpty(lines)[0] == lines[0] && NonEmpty(lines)[1..] == NonEmpty(lines[1..]);
      }
    }
  }

  lemma NonEmptyCons(line: string, lines: seq<string>)
    ensures NonEmpty([line] + lines) == (if line == [] then [] else [line]) + NonEmpty(lines)
  {
    assert ([line] + lines)[1..] == lines;
  }

  lemma WordsOfLine(line: string, gap: string, rest: string)
    requires forall i :: 0 <= i < |line| ==> !IsNewline(line[i])
    requires gap != [] && Words.IsGap(gap, IsNewline)
    ensures Words.Split(line + (gap + rest), IsNewline)
            == (if line == [] then [] else [line]) + Words.Split(rest, IsNewline)
  {
    Words.SplitGap(gap, IsNewline);
    Words.SplitAppend(gap, rest, IsNewline);
    Words.SplitAppend(line, gap + rest, IsNewline);
    if line != [] {
      Words.SplitWord(line, IsNewline);
    }
  }

  lemma CutTwice(s: string, from: nat, end: nat, next: nat)
    requires from <= end <= next <= |s|
    ensures s[from..] == s[from..end] + (s[end..next] + s[next..])
  {
  }

  lemma WordsFromLine(s: string, from: nat, end: nat, next: nat)
    requires from <= |s| && end == LineEnd(s, from) && end < next <= |s|
    requires Words.IsGap(s[end..next], IsNewline)
    ensures Words.Split(s[from..], IsNewline)
            == (if from == end then [] else [s[from..end]]) + Words.Split(s[next..], IsNewline)
  {
    CutTwice(s, from, end, next);
    WordsOfLine(s[from..end], s[end..next], s[next..]);
  }

  lemma WordsOfLastLine(s: string, from: nat)
    requires from <= |s| && LineEnd(s, from) == |s|
    ensures Words.Split(s[from..], IsNewline) == if from == |s| then [] else [s[from..|s|]]
  {
    if from < |s| {
      assert s[from..] == s[from..|s|];
      Words.SplitWord(s[from..], IsNewline);
    }
  }

  lemma LastLine(s: string, from: nat)
    requires from <= |s| && LineEnd(s, from) == |s|
    ensures NonEmpty([s[from..|s|]]) == Words.Split(s[from..], IsNewline)
  {
    WordsOfLastLine(s, from);
    NonEmptyCons(s[from..|s|], []);
    assert [s[from..|s|]] + [] == [s[from..|s|]];
  }

  lemma OneNewlineIsGap(s: string, end: nat)
    requires end < |s| && IsNewline(s[end])
    ensures Words.IsGap(s[end..end + 1], IsNewline)
  {
  }

  lemma NextIsGap(s: string, end: nat)
    requires end < |s| && IsNewline(s[end])
    ensures Words.IsGap(s[end..NextStart(s, end)], IsNewline)
  {
  }

  lemma OneMoreLine(s: string, from: nat, end: nat, next: nat, lines: seq<string>)
    requires from <= |s| && end == LineEnd(s, from) && end < next <= |s| && Words.IsGap(s[end..next], IsNewline)
    requires NonEmpty(lines) == Words.Split(s[next..], IsNewline)
    ensures NonEmpty([s[from..end]] + lines) == Words.Split(s[from..], IsNewline)
  {
    WordsFromLine(s, from, end, next);
    NonEmptyCons(s[from..end], lines);
  }

  /** Both ways of cutting visit every maximal run without CR or LF exactly once, in order. */
  lemma {:induction false} VisitedAreTheLines(s: string, from: nat)
    requires from <= |s|
    ensures NonEmpty(Visited(s, from)) == Words.Split(s[from..], IsNewline)
    decreases |s| - from
  {
    var end := LineEnd(s, from);
    if end == |s| {
      LastLine(s, from);
    } else {
      VisitedAreTheLines(s, NextStart(s, end));
      NextIsGap(s, end);
      OneMoreLine(s, from, end, NextStart(s, end), Visited(s, NextStart(s, end)));
    }
  }

  lemma {:induction false} SplitEachAreTheLines(s: string, from: nat)
    requires from <= |s|
    ensures NonEmpty(SplitEach(s, from)) == Words.Split(s[from..], IsNewline)
    decreases |s| - from
  {
    var end := LineEnd(s, from);
    if end == |s| {
      LastLine(s, from);
    } else {
      SplitEachAreTheLines(s, end + 1);
      OneNewlineIsGap(s, end);
      OneMoreLine(s, from, end, end + 1, SplitEach(s, end + 1));
    }
  }

  lemma FirstErrorCons(line: string, lines: seq<string>, test: string -> Option<string>)
    ensures FirstError([line] + lines, test) == if test(line).Some? then test(line) else FirstError(lines, test)
  {
    assert ([line] + lines)[1..] == lines;
  }

  /** Main result: for a test that rejects the empty line, the scan below, splitting at every single CR or
      LF, and looking at the maximal runs only are one and the same search. */
  lemma ScansAgree(s: string, test: string -> Option<string>)
    requires test([]).None?
    ensures FirstError([s] + Visited(s, 0), test) == FirstError([s] + Words.Split(s, IsNewline), test)
    ensures FirstError([s] + SplitEach(s, 0), test) == FirstError([s] + Words.Split(s, IsNewline), test)
  {
    VisitedAreTheLines(s, 0);
    SplitEachAreTheLines(s, 0);
    assert s[0..] == s;
    EmptyLinesDoNotMatter(Visited(s, 0), test);
    EmptyLinesDoNotMatter(SplitEach(s, 0), test);
    FirstErrorCons(s, Visited(s, 0), test);
    FirstErrorCons(s, SplitEach(s, 0), test);
    FirstErrorCons(s, Words.Split(s, IsNewline), test);
  }

  /** What the scan finds from a position on. */
  function Scan(s: string, from: nat, test: string -> Option<string>): Option<string>
    requires from <= |s|
  {
    FirstError(Visited(s, from), test)
  }

  /** One turn of the scan. */
  lemma ScanTurn(s: string, from: nat, test: string -> Option<string>)
    requires from <= |s|
    ensures var end := LineEnd(s, from);
            var hit := test(s[from..end]);
            Scan(s, from, test) ==
              if hit.Some? then hit else if end == |s| then None else Scan(s, NextStart(s, end), test)
  {
    var end := LineEnd(s, from);
    FirstErrorCons(s[from..end], if end == |s| then [] else Visited(s, NextStart(s, end)), test);
  }

  /** The line scan: the first hit among the visited lines. */
  method ScanLines(raw: string, test: string -> Option<string>) returns (r: Option<string>)
    ensures r == Scan(raw, 0, test)
  {
    r := None;
    var lineStart := 0;
    while lineStart <= |raw|
      invariant lineStart <= |raw| && Scan(raw, 0, test) == Scan(raw, lineStart, test)
      decreases |raw| - lineStart
    {
      ScanTurn(raw, lineStart, test);
      var lineEnd := LineEnd(raw, lineStart);
      r := test(raw[lineStart..lineEnd]);
      if r.Some? || lineEnd == |raw| {
        return;
      }
      lineStart := lineEnd + 1;
      if lineStart < |raw| && raw[lineEnd] == '\r' && raw[lineStart] == '\n' {
        lineStart := lineStart + 1;
      }
    }
  }

  /** Main result: the first hit among the whole message and then its lines. The message is None when the
      JSON value holds no text. */
  method TryExtractLuaErrorMessage(message: Option<string>, test: string -> Option<string>) returns (r: Option<string>)
    ensures message.None? ==> r.None?
    ensures message.Some? ==> r == FirstError([message.value] + Visited(message.value, 0), test)
  {
    if message.None? {
      return None;
    }
    var raw := message.value;
    FirstErrorCons(raw, Visited(raw, 0), test);
    r := test(raw);
    if r.None? {
      r := ScanLines(raw, test);
    }
  }
}
