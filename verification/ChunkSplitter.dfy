/** The overlapping window splitter `_split_chunk_text` (backend/app/services/indexing.py). */
module ChunkSplitter {
  import opened Lines

  datatype Limits = Limits(maxChars: int, maxLines: int, overlap: int)

  /** A part's text and its first and last line, counted from 1 within the text that was split. */
  datatype Part = Part(text: string, start: nat, end: nat)

  function SourceLines(text: string): (lines: seq<string>)
    ensures |lines| > 0 && AllLines(lines)
  {
    if SplitLines(text) == [] then [text] else SplitLines(text)
  }

  function WindowEnd(n: nat, start: nat, lim: Limits): nat
    requires start < n && lim.maxLines >= 1
  {
    Min(start + lim.maxLines, n)
  }

  /** The window is too long in characters and has more than one line, so it is cut to half its lines. */
  predicate Halves(lines: seq<string>, start: nat, lim: Limits)
    requires start < |lines| && lim.maxLines >= 1
  {
    var end := WindowEnd(|lines|, start, lim);
    |Join(lines[start..end])| > lim.maxChars && end - start > 1
  }

  function PartEnd(lines: seq<string>, start: nat, lim: Limits): (end: nat)
    requires start < |lines| && lim.maxLines >= 1
    ensures start < end <= |lines| && end - start <= lim.maxLines
  {
    var end := WindowEnd(|lines|, start, lim);
    if Halves(lines, start, lim) then start + (end - start) / 2 else end
  }

  function SplitFrom(lines: seq<string>, start: nat, lim: Limits): seq<Part>
    requires lim.maxLines >= 1
    decreases |lines| - start
  {
    if start >= |lines| then []
    else
      var end := PartEnd(lines, start, lim);
      var part := Part(Join(lines[start..end]), start + 1, end);
      if end == |lines| then [part] else [part] + SplitFrom(lines, Max(end - lim.overlap, start + 1), lim)
  }

  function Split(text: string, lim: Limits): seq<Part>
    requires lim.maxLines >= 1
  {
    SplitFrom(SourceLines(text), 0, lim)
  }

  /** One turn of the loop: emit the next part, then split what is left. */
  lemma {:induction false} NextPart(lines: seq<string>, start: nat, lim: Limits, chunks: seq<Part>, end: nat,
                                    part: Part)
    requires lim.maxLines >= 1 && start < |lines|
    requires end == PartEnd(lines, start, lim) && part == Part(Join(lines[start..end]), start + 1, end)
    ensures end == |lines| ==> chunks + SplitFrom(lines, start, lim) == chunks + [part]
    ensures end < |lines| ==>
              chunks + SplitFrom(lines, start, lim)
              == chunks + [part] + SplitFrom(lines, Max(end - lim.overlap, start + 1), lim)
  {
  }

  method SplitChunkText(text: string, lim: Limits) returns (chunks: seq<Part>)
    requires lim.maxLines >= 1
    ensures chunks == Split(text, lim)
  {
    hide Join;
    var lines := SplitLines(text);
    if lines == [] {
      lines := [text];
    }
    ghost var all := SplitFrom(lines, 0, lim);
    chunks := [];
    var start: nat := 0;
    while start < |lines|
      invariant chunks + SplitFrom(lines, start, lim) == all
      decreases |lines| - start
    {
      var end := Min(start + lim.maxLines, |lines|);
      var partLines := lines[start..end];
      var partText := Join(partLines);
      if |partText| > lim.maxChars && |partLines| > 1 {
        end := start + Max(1, |partLines| / 2);
        partLines := lines[start..end];
        partText := Join(partLines);
      }
      var part := Part(partText, start + 1, end);
      NextPart(lines, start, lim, chunks, end, part);
      chunks := chunks + [part];
      if end >= |lines| {
        return;
      }
      start := Max(end - lim.overlap, start + 1);
    }
  }

  // ----- What each part is -----

  /** Every part is exactly its stated line range, at most `maxLines` long, and starts strictly increase. */
  lemma {:induction false} PartsAreTheirRanges(lines: seq<string>, start: nat, lim: Limits, k: nat)
    requires lim.maxLines >= 1 && k < |SplitFrom(lines, start, lim)|
    ensures var parts := SplitFrom(lines, start, lim);
            && start < parts[k].start <= parts[k].end <= |lines|
            && parts[k].end - parts[k].start < lim.maxLines
            && parts[k].text == Join(lines[parts[k].start - 1..parts[k].end])
            && (parts[k].start == start + 1 <==> k == 0)
            && (k > 0 ==> parts[k - 1].start < parts[k].start)
    decreases k
  {
    hide Join, Halves;
    var end := PartEnd(lines, start, lim);
    if k > 0 {
      var next := Max(end - lim.overlap, start + 1);
      assert SplitFrom(lines, start, lim)[k] == SplitFrom(lines, next, lim)[k - 1];
      PartsAreTheirRanges(lines, next, lim, k - 1);
      if k > 1 {
        assert SplitFrom(lines, start, lim)[k - 1] == SplitFrom(lines, next, lim)[k - 2];
      }
    }
  }

  /**
   Where each part ends and the next begins: at the end of its window exactly when the window fits `maxChars` or is
   one line, else after half the window's lines; the next part starts `overlap` lines before that, but later than
   this one; and parts stop only at the last line, or when an overlap below zero jumps past it.
   */
  lemma {:induction false} PartsFollowTheLimits(lines: seq<string>, start: nat, lim: Limits, k: nat)
    requires lim.maxLines >= 1 && start < |lines| && k < |SplitFrom(lines, start, lim)|
    ensures var parts := SplitFrom(lines, start, lim);
            && 1 <= parts[k].start <= |lines|
            && var first := parts[k].start - 1;
               var last := Min(first + lim.maxLines, |lines|);
               && (parts[k].end == last <==> |Join(lines[first..last])| <= lim.maxChars || last - first == 1)
               && (parts[k].end != last ==> parts[k].end - first == (last - first) / 2)
    ensures var parts := SplitFrom(lines, start, lim);
            && (k == 0 ==> parts[k].start == start + 1)
            && (if k + 1 < |parts| then
                  parts[k].end < |lines| && parts[k + 1].start == Max(parts[k].end - lim.overlap, parts[k].start) + 1
                else parts[k].end == |lines| || parts[k].end - lim.overlap >= |lines|)
    decreases k
  {
    hide *;
    FirstPart(lines, start, lim);
    PartEndIs(lines, start, lim);
    PartsLeft(lines, start, lim);
    MaxIs();
    var next := Max(PartEnd(lines, start, lim) - lim.overlap, start + 1);
    if k > 0 {
      LaterPart(lines, start, lim, k);
      PartsFollowTheLimits(lines, next, lim, k - 1);
      if k + 1 < |SplitFrom(lines, start, lim)| {
        LaterPart(lines, start, lim, k + 1);
      }
    } else if 1 < |SplitFrom(lines, start, lim)| {
      LaterPart(lines, start, lim, 1);
      FirstPart(lines, next, lim);
    }
  }

  lemma {:induction false} MaxIs()
    ensures forall a, b :: Max(a, b) == if a >= b then a else b
  {
  }

  lemma {:induction false} PartEndIs(lines: seq<string>, start: nat, lim: Limits)
    requires lim.maxLines >= 1 && start < |lines|
    ensures var end, last := PartEnd(lines, start, lim), Min(start + lim.maxLines, |lines|);
            && last <= |lines| && start < last
            && (end == last <==> |Join(lines[start..last])| <= lim.maxChars || last - start == 1)
            && (end != last ==> end - start == (last - start) / 2)
  {
    hide Join;
  }

  lemma {:induction false} PartsLeft(lines: seq<string>, start: nat, lim: Limits)
    requires lim.maxLines >= 1 && start < |lines|
    ensures var end := PartEnd(lines, start, lim);
            |SplitFrom(lines, start, lim)|
            == if end == |lines| then 1 else 1 + |SplitFrom(lines, Max(end - lim.overlap, start + 1), lim)|
    ensures var next := Max(PartEnd(lines, start, lim) - lim.overlap, start + 1);
            next < |lines| <==> |SplitFrom(lines, next, lim)| > 0
  {
    hide Join, Halves;
  }

  /** A text that fits both limits is one part. */
  lemma {:induction false} FittingTextIsOnePart(text: string, lim: Limits)
    requires lim.maxLines >= 1 && |SourceLines(text)| <= lim.maxLines
    requires |Join(SourceLines(text))| <= lim.maxChars || |SourceLines(text)| == 1
    ensures Split(text, lim) == [Part(Join(SourceLines(text)), 1, |SourceLines(text)|)]
  {
    hide Join, SourceLines, SplitFrom;
    var lines := SourceLines(text);
    assert lines[0..|lines|] == lines;
    FirstPart(lines, 0, lim);
    PartsFollowTheLimits(lines, 0, lim, 0);
    PartsLeft(lines, 0, lim);
  }

  /** Parts of a gapless split, read back by a reader who drops the lines already seen. */
  function Rebuild(parts: seq<Part>, high: nat): seq<string> {
    if parts == [] then []
    else
      var own, seen := SplitNewline(parts[0].text), Max(high - (parts[0].start - 1), 0);
      (if seen < |own| then own[seen..] else []) + Rebuild(parts[1..], Max(high, parts[0].end))
  }

  lemma {:induction false} RebuildStep(part: Part, rest: seq<Part>, lines: seq<string>, high: nat)
    requires AllLines(lines) && 1 <= part.start <= part.end <= |lines|
    requires part.text == Join(lines[part.start - 1..part.end])
    requires part.start - 1 <= high
    ensures Rebuild([part] + rest, high)
         == (if high < part.end then lines[high..part.end] else []) + Rebuild(rest, Max(high, part.end))
    ensures Rebuild([], Max(high, part.end)) == []
  {
    var own := lines[part.start - 1..part.end];
    SplitNewlineOfJoin(own);
    assert ([part] + rest)[1..] == rest;
    if high < part.end {
      assert own[high - (part.start - 1)..] == lines[high..part.end];
    }
  }

  lemma {:induction false} RebuildFrom(lines: seq<string>, start: nat, lim: Limits, high: nat)
    requires lim.maxLines >= 1 && lim.overlap >= 0 && AllLines(lines)
    requires start <= high <= |lines| && start < |lines|
    ensures Rebuild(SplitFrom(lines, start, lim), high) == lines[high..]
    decreases |lines| - start
  {
    hide Join, Rebuild, Halves;
    var end := PartEnd(lines, start, lim);
    var part, next := Part(Join(lines[start..end]), start + 1, end), Max(end - lim.overlap, start + 1);
    var rest := if end == |lines| then [] else SplitFrom(lines, next, lim);
    assert SplitFrom(lines, start, lim) == [part] + rest;
    RebuildStep(part, rest, lines, high);
    if end < |lines| {
      RebuildFrom(lines, next, lim, Max(high, end));
      assert lines[high..] == (if high < end then lines[high..end] else []) + lines[Max(high, end)..];
    }
  }

  /** Keeping only the lines past the highest end so far rebuilds the text from the parts alone. */
  lemma {:induction false} PartsRebuildTheText(text: string, lim: Limits)
    requires lim.maxLines >= 1 && lim.overlap >= 0
    ensures Rebuild(Split(text, lim), 0) == SourceLines(text)
  {
    RebuildFrom(SourceLines(text), 0, lim, 0);
    assert SourceLines(text)[0..] == SourceLines(text);
  }

  /** The splitter leaves no gap: every line from `start` on lies in some part. */
  lemma {:induction false} EveryLineIsInAPart(lines: seq<string>, start: nat, lim: Limits, i: nat) returns (k: nat)
    requires lim.maxLines >= 1 && lim.overlap >= 0 && start <= i < |lines|
    ensures k < |SplitFrom(lines, start, lim)|
    ensures SplitFrom(lines, start, lim)[k].start <= i + 1 <= SplitFrom(lines, start, lim)[k].end
    decreases |lines| - start
  {
    hide Join, Halves;
    var end := PartEnd(lines, start, lim);
    if i < end {
      k := 0;
    } else {
      var rest := EveryLineIsInAPart(lines, Max(end - lim.overlap, start + 1), lim, i);
      k := rest + 1;
    }
  }

  // ----- How many parts -----

  function CeilDiv(a: nat, b: nat): nat
    requires b >= 1
  {
    (a + b - 1) / b
  }

  lemma {:induction false} MultipleIsLarge(b: int, d: int)
    requires b > 0 && d != 0
    ensures d > 0 ==> b * d >= b
    ensures d < 0 ==> b * d <= -b
    decreases if d > 0 then d else -d
  {
    if d > 1 {
      MultipleIsLarge(b, d - 1);
      assert b * d == b * (d - 1) + b;
    } else if d < -1 {
      MultipleIsLarge(b, d + 1);
      assert b * d == b * (d + 1) - b;
    }
  }

  lemma {:induction false} QuotientIs(x: nat, b: nat, q: int, r: nat)
    requires r < b && x == b * q + r
    ensures x / b == q
  {
    var q0, r0 := x / b, x % b;
    assert b * (q - q0) == b * q - b * q0;
    if q != q0 {
      MultipleIsLarge(b, q - q0);
    }
  }

  lemma {:induction false} DivStep(x: nat, b: nat)
    requires b >= 1
    ensures (x + b) / b == x / b + 1
  {
    var q, r := x / b, x % b;
    assert b * (q + 1) == b * q + b;
    QuotientIs(x + b, b, q + 1, r);
  }

  lemma {:induction false} CeilDivStep(a: nat, b: nat)
    requires b >= 1
    ensures CeilDiv(a + b, b) == CeilDiv(a, b) + 1
  {
    DivStep(a + b - 1, b);
  }

  lemma {:induction false} CeilDivSmall(a: nat, b: nat)
    requires a <= b && b >= 1
    ensures CeilDiv(a, b) == if a == 0 then 0 else 1
  {
    if a == 0 {
      QuotientIs(b - 1, b, 0, b - 1);
    } else {
      QuotientIs(a + b - 1, b, 1, a - 1);
    }
  }

  /** The part is a window that was cut to half its lines. */
  predicate IsHalved(lines: seq<string>, part: Part, lim: Limits)
    requires lim.maxLines >= 1
  {
    1 <= part.start <= |lines| && Halves(lines, part.start - 1, lim)
  }

  ghost predicate NoneHalved(lines: seq<string>, parts: seq<Part>, lim: Limits)
    requires lim.maxLines >= 1
  {
    forall k :: 0 <= k < |parts| ==> !IsHalved(lines, parts[k], lim)
  }

  /** The first part is a whole window, and the remaining parts are those of the rest. */
  lemma {:induction false} NoneHalvedStep(lines: seq<string>, start: nat, lim: Limits)
    requires lim.maxLines >= 1 && start < |lines| && NoneHalved(lines, SplitFrom(lines, start, lim), lim)
    ensures PartEnd(lines, start, lim) == WindowEnd(|lines|, start, lim)
    ensures PartEnd(lines, start, lim) < |lines| ==>
              var next := Max(PartEnd(lines, start, lim) - lim.overlap, start + 1);
              && |SplitFrom(lines, start, lim)| == 1 + |SplitFrom(lines, next, lim)|
              && NoneHalved(lines, SplitFrom(lines, next, lim), lim)
    ensures PartEnd(lines, start, lim) == |lines| ==> |SplitFrom(lines, start, lim)| == 1
  {
    hide Join, Halves;
    var parts := SplitFrom(lines, start, lim);
    FirstPart(lines, start, lim);
    assert !IsHalved(lines, parts[0], lim);
    if PartEnd(lines, start, lim) < |lines| {
      var rest := SplitFrom(lines, Max(PartEnd(lines, start, lim) - lim.overlap, start + 1), lim);
      assert forall k :: 0 <= k < |rest| ==> rest[k] == parts[k + 1];
    }
  }

  lemma {:induction false} PartCountFrom(lines: seq<string>, start: nat, lim: Limits)
    requires 0 <= lim.overlap < lim.maxLines && start < |lines|
    requires NoneHalved(lines, SplitFrom(lines, start, lim), lim)
    ensures |SplitFrom(lines, start, lim)| ==
            1 + CeilDiv(Max(|lines| - start - lim.maxLines, 0), lim.maxLines - lim.overlap)
    decreases |lines| - start
  {
    hide SplitFrom, CeilDiv, PartEnd, NoneHalved;
    var step, left := lim.maxLines - lim.overlap, |lines| - start - lim.maxLines;
    NoneHalvedStep(lines, start, lim);
    if left > 0 {
      PartCountFrom(lines, start + step, lim);
    }
    if left > step {
      CeilDivStep(left - step, step);
    } else {
      CeilDivSmall(Max(left, 0), step);
      CeilDivSmall(0, step);
    }
  }

  /**
   When no window the loop visits is halved, n lines give exactly
   1 + ceil(max(n - maxLines, 0) / (maxLines - overlap)) parts.
   */
  lemma {:induction false} PartCount(text: string, lim: Limits)
    requires 0 <= lim.overlap < lim.maxLines
    requires NoneHalved(SourceLines(text), Split(text, lim), lim)
    ensures |Split(text, lim)| ==
            1 + CeilDiv(Max(|SourceLines(text)| - lim.maxLines, 0), lim.maxLines - lim.overlap)
  {
    hide CeilDiv, SplitFrom, NoneHalved, SourceLines;
    PartCountFrom(SourceLines(text), 0, lim);
  }

  /** With halving too there are at most as many parts as lines, whatever the limits. */
  lemma {:induction false} AtMostOnePartPerLine(lines: seq<string>, start: nat, lim: Limits)
    requires lim.maxLines >= 1 && start <= |lines|
    ensures |SplitFrom(lines, start, lim)| <= |lines| - start
    decreases |lines| - start
  {
    if start < |lines| && PartEnd(lines, start, lim) < |lines| {
      var next := Max(PartEnd(lines, start, lim) - lim.overlap, start + 1);
      if next <= |lines| {
        AtMostOnePartPerLine(lines, next, lim);
      }
    }
  }

  // ----- The character limit -----

  lemma {:induction false} JoinLength(lines: seq<string>, bound: nat)
    requires forall i :: 0 <= i < |lines| ==> |lines[i]| <= bound
    ensures |Join(lines)| <= |lines| * (bound + 1)
    ensures |lines| > 0 ==> |Join(lines)| <= |lines| * (bound + 1) - 1
  {
    if |lines| > 1 {
      JoinLength(lines[1..], bound);
    }
  }

  lemma {:induction false} JoinIsAtLeastALine(lines: seq<string>, i: nat)
    requires i < |lines|
    ensures |Join(lines)| >= |lines[i]|
  {
    if |lines| > 1 && i > 0 {
      JoinIsAtLeastALine(lines[1..], i - 1);
    }
  }

  ghost predicate LinesAtMost(text: string, longest: nat) {
    forall i :: 0 <= i < |SourceLines(text)| ==> |SourceLines(text)[i]| <= longest
  }

  ghost predicate PartsFit(text: string, lim: Limits)
    requires lim.maxLines >= 1
  {
    forall k :: 0 <= k < |Split(text, lim)| ==> |Split(text, lim)[k].text| <= lim.maxChars
  }

  /**
   Exactly when `max_chars` bounds the parts of every text whose lines have at most `longest` characters:
   when half a window of such lines fits, since a window is halved only once.
   */
  lemma {:induction false} CharLimitIff(lim: Limits, longest: nat)
    requires lim.maxLines >= 1
    ensures (forall text :: LinesAtMost(text, longest) ==> PartsFit(text, lim))
       <==> (longest + 1) * Max(1, lim.maxLines / 2) - 1 <= lim.maxChars
  {
    hide SplitFrom, SourceLines;
    if (longest + 1) * Max(1, lim.maxLines / 2) - 1 <= lim.maxChars {
      forall text | LinesAtMost(text, longest) ensures PartsFit(text, lim) {
        forall k | 0 <= k < |Split(text, lim)| ensures |Split(text, lim)[k].text| <= lim.maxChars {
          PartFits(SourceLines(text), 0, lim, longest, k);
        }
      }
    } else {
      var text := LongestRows(lim, longest);
      assert LinesAtMost(text, longest) && !PartsFit(text, lim);
    }
  }

  /** `max_chars` bounds the parts of every text whose lines fit it exactly for windows of at most three lines. */
  lemma {:induction false} CharLimitIsHardIff(lim: Limits)
    requires lim.maxLines >= 1 && lim.maxChars >= 0
    ensures (forall text :: LinesAtMost(text, lim.maxChars) ==> PartsFit(text, lim)) <==> lim.maxLines <= 3
  {
    CharLimitIff(lim, lim.maxChars);
    hide LinesAtMost, PartsFit;
    var half := Max(1, lim.maxLines / 2);
    if lim.maxLines > 3 {
      ProductGrows(lim.maxChars + 1, 2, half);
    }
  }

  /** Lines are never broken: whatever the limits, parts that fit hold only lines that fit. */
  lemma {:induction false} PartsFitOnlyIfLinesDo(text: string, lim: Limits)
    requires lim.maxLines >= 1 && lim.overlap >= 0 && PartsFit(text, lim)
    ensures forall i :: 0 <= i < |SourceLines(text)| ==> |SourceLines(text)[i]| <= lim.maxChars
  {
    hide Join, SourceLines, SplitFrom;
    var lines, parts := SourceLines(text), Split(text, lim);
    forall i | 0 <= i < |lines| ensures |lines[i]| <= lim.maxChars {
      var k := EveryLineIsInAPart(lines, 0, lim, i);
      PartsAreTheirRanges(lines, 0, lim, k);
      JoinIsAtLeastALine(lines[parts[k].start - 1..parts[k].end], i - (parts[k].start - 1));
      assert |parts[k].text| <= lim.maxChars;
    }
  }

  function Row(longest: nat): (row: string)
    ensures |row| == longest && NoBreaks(row)
  {
    seq(longest, i => 'a')
  }

  function Rows(longest: nat, n: nat): (rows: seq<string>)
    ensures |rows| == n && AllLines(rows) && forall i :: 0 <= i < n ==> rows[i] == Row(longest)
  {
    seq(n, i => Row(longest))
  }

  lemma {:induction false} RowsLength(rows: seq<string>, longest: nat)
    requires rows != [] && forall i :: 0 <= i < |rows| ==> |rows[i]| == longest
    ensures |Join(rows)| == (longest + 1) * |rows| - 1
  {
    if |rows| > 1 {
      RowsLength(rows[1..], longest);
      assert (longest + 1) * |rows| == (longest + 1) * (|rows| - 1) + (longest + 1);
    }
  }

  /** A text that is one whole window of lines of `longest` characters, and its first part. */
  lemma {:induction false} LongestRows(lim: Limits, longest: nat) returns (text: string)
    requires lim.maxLines >= 1 && (longest + 1) * Max(1, lim.maxLines / 2) - 1 > lim.maxChars
    ensures LinesAtMost(text, longest) && !PartsFit(text, lim)
  {
    hide Join, SplitLines, SplitFrom, SourceLines;
    var rows := Rows(longest, lim.maxLines);
    text := Join(if longest == 0 then rows + [""] else rows);
    SplitLinesOfJoin(if longest == 0 then rows + [""] else rows);
    assert SplitLines(text) == rows by {
      assert (rows + [""])[..|rows|] == rows;
    }
    assert SourceLines(text) == rows by { SourceLinesIs(text); }
    FirstPart(rows, 0, lim);
    var end := PartEnd(rows, 0, lim);
    RowsLength(rows[0..end], longest);
    assert rows[0..|rows|] == rows;
    RowsLength(rows, longest);
    ProductGrows(longest + 1, Max(1, lim.maxLines / 2), lim.maxLines);
    assert |Split(text, lim)[0].text| > lim.maxChars;
  }

  lemma {:induction false} SourceLinesIs(text: string)
    ensures SplitLines(text) != [] ==> SourceLines(text) == SplitLines(text)
  {
  }

  lemma {:induction false} FewLinesFit(lines: seq<string>, longest: nat, most: nat)
    requires forall i :: 0 <= i < |lines| ==> |lines[i]| <= longest
    requires 0 < |lines| <= most
    ensures |Join(lines)| <= (longest + 1) * most - 1
  {
    JoinLength(lines, longest);
    ProductGrows(longest + 1, |lines|, most);
    assert |lines| * (longest + 1) == (longest + 1) * |lines|;
  }

  /** If half a window of lines no longer than `longest` fits, every part fits. */
  lemma {:induction false} PartFits(lines: seq<string>, start: nat, lim: Limits, longest: nat, k: nat)
    requires lim.maxLines >= 1 && start < |lines| && k < |SplitFrom(lines, start, lim)|
    requires forall i :: 0 <= i < |lines| ==> |lines[i]| <= longest
    requires (longest + 1) * Max(1, lim.maxLines / 2) - 1 <= lim.maxChars
    ensures |SplitFrom(lines, start, lim)[k].text| <= lim.maxChars
    decreases k
  {
    hide SplitFrom, PartEnd, Join;
    FirstPart(lines, start, lim);
    if k > 0 {
      LaterPart(lines, start, lim, k);
      PartFits(lines, Max(PartEnd(lines, start, lim) - lim.overlap, start + 1), lim, longest, k - 1);
    } else {
      FirstPartFits(lines, start, lim, longest);
    }
  }

  lemma {:induction false} LaterPart(lines: seq<string>, start: nat, lim: Limits, k: nat)
    requires lim.maxLines >= 1 && start < |lines| && 0 < k < |SplitFrom(lines, start, lim)|
    ensures var next := Max(PartEnd(lines, start, lim) - lim.overlap, start + 1);
            && k - 1 < |SplitFrom(lines, next, lim)|
            && SplitFrom(lines, start, lim)[k] == SplitFrom(lines, next, lim)[k - 1]
            && next < |lines|
  {
    hide Join, Halves;
  }

  lemma {:induction false} FirstPartFits(lines: seq<string>, start: nat, lim: Limits, longest: nat)
    requires lim.maxLines >= 1 && start < |lines|
    requires forall i :: 0 <= i < |lines| ==> |lines[i]| <= longest
    requires (longest + 1) * Max(1, lim.maxLines / 2) - 1 <= lim.maxChars
    ensures |Join(lines[start..PartEnd(lines, start, lim)])| <= lim.maxChars
  {
    hide Join;
    var end := PartEnd(lines, start, lim);
    if Halves(lines, start, lim) || end - start == 1 {
      FewLinesFit(lines[start..end], longest, Max(1, lim.maxLines / 2));
    }
  }

  lemma {:induction false} ProductGrows(a: nat, b: nat, c: nat)
    requires b <= c
    ensures a * b <= a * c
    decreases c
  {
    if b < c {
      ProductGrows(a, b, c - 1);
      assert a * c == a * (c - 1) + a;
    }
  }

  lemma {:induction false} FirstPart(lines: seq<string>, start: nat, lim: Limits)
    requires lim.maxLines >= 1 && start < |lines|
    ensures var parts := SplitFrom(lines, start, lim);
            var end := PartEnd(lines, start, lim);
            |parts| > 0 && parts[0] == Part(Join(lines[start..end]), start + 1, end)
  {
  }

  /** From four lines on the limit is not a bound: the window is halved only once. */
  lemma {:induction false} CharLimitIsNotABound()
    ensures var lim := Limits(1, 4, 0);
            && (forall i :: 0 <= i < |SourceLines("a\nb\nc\nd")| ==> |SourceLines("a\nb\nc\nd")[i]| <= lim.maxChars)
            && |Split("a\nb\nc\nd", lim)| > 0
            && |Split("a\nb\nc\nd", lim)[0].text| > lim.maxChars
  {
    hide SplitLines, SplitFrom;
    var lines := ["a", "b", "c", "d"];
    assert Join(["c", "d"]) == "c\nd";
    assert Join(["b", "c", "d"]) == "b\nc\nd";
    assert Join(lines) == "a\nb\nc\nd";
    SplitLinesOfJoin(lines);
    assert SourceLines("a\nb\nc\nd") == lines;
    assert lines[0..4] == lines && lines[0..2] == ["a", "b"];
    assert Join(["a", "b"]) == "a\nb";
    FirstPart(lines, 0, Limits(1, 4, 0));
  }
}
