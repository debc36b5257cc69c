/** Python's line handling: `str.splitlines`, `"\n".join`, `str.split("\n")` and `_line_slice`. */
module Lines {

  /** The boundaries `str.splitlines` recognises; "\r\n" counts as one. */
  predicate IsBreak(c: char) {
    || '\U{000A}' <= c <= '\U{000D}'
    || '\U{001C}' <= c <= '\U{001E}'
    || c == '\U{0085}' || c == '\U{2028}' || c == '\U{2029}'
  }

  /** The characters `str.strip` removes. */
  predicate IsSpace(c: char) {
    || '\U{0009}' <= c <= '\U{000D}'
    || '\U{001C}' <= c <= '\U{0020}'
    || c == '\U{0085}' || c == '\U{00A0}' || c == '\U{1680}'
    || '\U{2000}' <= c <= '\U{200A}'
    || c == '\U{2028}' || c == '\U{2029}' || c == '\U{202F}' || c == '\U{205F}' || c == '\U{3000}'
  }

  /** `not text.strip()` */
  predicate Blank(text: string) {
    forall i :: 0 <= i < |text| ==> IsSpace(text[i])
  }

  predicate NoBreaks(line: string) {
    forall i :: 0 <= i < |line| ==> !IsBreak(line[i])
  }

  predicate AllLines(lines: seq<string>) {
    forall i :: 0 <= i < |lines| ==> NoBreaks(lines[i])
  }

  function FirstBreak(text: string): (n: nat)
    ensures n <= |text| && NoBreaks(text[..n])
    ensures n < |text| ==> IsBreak(text[n])
  {
    if text == "" || IsBreak(text[0]) then 0
    else
      var n := FirstBreak(text[1..]);
      assert text[..n + 1] == [text[0]] + text[1..][..n];
      n + 1
  }

  function SplitLines(text: string): (lines: seq<string>)
    ensures AllLines(lines)
    ensures lines == [] <==> text == ""
  {
    if text == "" then []
    else
      var n := FirstBreak(text);
      if n == |text| then (assert text[..n] == text; [text])
      else
        var width := if text[n] == '\r' && n + 1 < |text| && text[n + 1] == '\n' then 2 else 1;
        [text[..n]] + SplitLines(text[n + width..])
  }

  function Join(lines: seq<string>): string {
    if |lines| == 0 then "" else if |lines| == 1 then lines[0] else lines[0] + "\n" + Join(lines[1..])
  }

  /** `text.split("\n")`, the reader's inverse of `Join`. */
  function SplitNewline(text: string): (pieces: seq<string>)
    ensures |pieces| > 0
  {
    if text == "" then [""]
    else
      var rest := SplitNewline(text[1..]);
      if text[0] == '\n' then [""] + rest else [[text[0]] + rest[0]] + rest[1..]
  }

  function DropTrailingEmpty(lines: seq<string>): seq<string> {
    if lines != [] && lines[|lines| - 1] == "" then lines[..|lines| - 1] else lines
  }

  function Max(a: int, b: int): int { if a >= b then a else b }
  function Min(a: int, b: int): int { if a <= b then a else b }

  /** `_line_slice`: lines `startLine..endLine`, counted from 1 and clamped to the text. */
  function Slice(lines: seq<string>, startLine: nat, endLine: nat): seq<string> {
    var lo, hi := Max(startLine - 1, 0), Min(endLine, |lines|);
    if lo < hi then lines[lo..hi] else []
  }

  function LineSlice(text: string, startLine: nat, endLine: nat): string {
    Join(Slice(SplitLines(text), startLine, endLine))
  }

  // ----- Where lines end -----

  /** The code points that end a line, and those that `str.strip` removes; every line end is blank. */
  lemma {:induction false} CharacterTables(c: char)
    ensures IsBreak(c) <==> c as int in {10, 11, 12, 13, 28, 29, 30, 0x85, 0x2028, 0x2029}
    ensures IsSpace(c) <==> c as int in {9, 10, 11, 12, 13, 28, 29, 30, 31, 32, 0x85, 0xA0, 0x1680,
                                         0x2000, 0x2001, 0x2002, 0x2003, 0x2004, 0x2005, 0x2006, 0x2007, 0x2008,
                                         0x2009, 0x200A, 0x2028, 0x2029, 0x202F, 0x205F, 0x3000}
    ensures IsBreak(c) ==> IsSpace(c)
  {
  }

  /** What ends a line before `rest`: one line-end character, or a carriage return with its line feed. */
  predicate IsTerminator(term: string, rest: string) {
    || term == "\r\n"
    || (|term| == 1 && IsBreak(term[0]) && !(term == "\r" && rest != "" && rest[0] == '\n'))
  }

  /** A line is cut off at every kind of line end, and text without one is one line. */
  lemma {:induction false} SplitLinesAtTerminator(line: string, term: string, rest: string)
    requires NoBreaks(line)
    ensures SplitLines(line) == if line == "" then [] else [line]
    ensures IsTerminator(term, rest) ==> SplitLines(line + term + rest) == [line] + SplitLines(rest)
  {
    hide FirstBreak;
    FirstBreakAfter(line, "");
    assert line + "" == line;
    if IsTerminator(term, rest) {
      var text, tail := line + term + rest, term + rest;
      assert text == line + tail;
      FirstBreakAfter(line, tail);
      assert text[|line|] == term[0] && text[..|line|] == line && text[|line| + |term|..] == rest;
      assert |line| + 1 < |text| ==> text[|line| + 1] == if |term| == 2 then '\n' else rest[0];
    }
  }

  // ----- Joining and splitting are inverse -----

  lemma {:induction false} FirstBreakAfter(line: string, rest: string)
    requires NoBreaks(line)
    requires rest == "" || IsBreak(rest[0])
    ensures FirstBreak(line + rest) == |line|
  {
    if line == "" {
      assert line + rest == rest;
    } else {
      assert (line + rest)[1..] == line[1..] + rest;
      FirstBreakAfter(line[1..], rest);
    }
  }

  lemma {:induction false} SplitLinesAfter(line: string, rest: string)
    requires NoBreaks(line)
    ensures SplitLines(line) == DropTrailingEmpty([line])
    ensures SplitLines(line + "\n" + rest) == [line] + SplitLines(rest)
  {
    hide FirstBreak;
    var text, tail := line + "\n" + rest, "\n" + rest;
    FirstBreakAfter(line, "");
    assert line + "" == line;
    FirstBreakAfter(line, tail);
    assert text == line + tail && text[|line|] == '\n';
    assert text[..|line|] == line && text[|line| + 1..] == rest;
  }

  /** A joined slice splits back to its lines, except that one trailing empty line is lost. */
  lemma {:induction false} SplitLinesOfJoin(lines: seq<string>)
    requires AllLines(lines)
    ensures SplitLines(Join(lines)) == DropTrailingEmpty(lines)
  {
    hide SplitLines;
    if |lines| == 0 {
      SplitLinesAfter("", "");
    } else if |lines| == 1 {
      SplitLinesAfter(lines[0], "");
    } else {
      SplitLinesAfter(lines[0], Join(lines[1..]));
      SplitLinesOfJoin(lines[1..]);
    }
  }

  lemma {:induction false} SplitNewlineAfter(line: string, rest: string)
    requires NoBreaks(line)
    ensures SplitNewline(line) == [line]
    ensures SplitNewline(line + "\n" + rest) == [line] + SplitNewline(rest)
  {
    if line == "" {
      assert line + "\n" + rest == "\n" + rest;
      assert ("\n" + rest)[1..] == rest;
    } else {
      assert (line + "\n" + rest)[1..] == line[1..] + "\n" + rest;
      SplitNewlineAfter(line[1..], rest);
      assert [line[0]] + line[1..] == line;
    }
  }

  /** Splitting on newline recovers joined lines exactly. */
  lemma {:induction false} SplitNewlineOfJoin(lines: seq<string>)
    requires |lines| > 0 && AllLines(lines)
    ensures SplitNewline(Join(lines)) == lines
  {
    if |lines| == 1 {
      SplitNewlineAfter(lines[0], "");
    } else {
      SplitNewlineAfter(lines[0], Join(lines[1..]));
      SplitNewlineOfJoin(lines[1..]);
    }
  }

  lemma {:induction false} JoinStep(lines: seq<string>)
    ensures |lines| == 1 ==> Join(lines) == lines[0]
    ensures |lines| > 1 ==> Join(lines) == lines[0] + "\n" + Join(lines[1..])
  {
  }

  lemma {:induction false} JoinContains(lines: seq<string>, i: nat, p: nat) returns (q: nat)
    requires i < |lines| && p < |lines[i]|
    ensures q < |Join(lines)| && Join(lines)[q] == lines[i][p]
  {
    JoinStep(lines);
    hide Join;
    if i == 0 {
      q := p;
    } else {
      var r := JoinContains(lines[1..], i - 1, p);
      q := |lines[0]| + 1 + r;
    }
  }

  /** A line with a visible character makes any joined text that holds it visible. */
  lemma {:induction false} JoinOfVisibleLineIsVisible(lines: seq<string>, i: nat)
    requires i < |lines| && !Blank(lines[i])
    ensures !Blank(Join(lines))
  {
    var p :| 0 <= p < |lines[i]| && !IsSpace(lines[i][p]);
    var q := JoinContains(lines, i, p);
  }

  lemma {:induction false} JoinOfBlankLinesIsBlank(lines: seq<string>)
    requires forall i :: 0 <= i < |lines| ==> Blank(lines[i])
    ensures Blank(Join(lines))
  {
    JoinStep(lines);
    if |lines| > 1 {
      JoinOfBlankLinesIsBlank(lines[1..]);
      assert Blank(lines[0]) && IsSpace('\n');
    } else if |lines| == 1 {
      assert Blank(lines[0]);
    }
  }
}
