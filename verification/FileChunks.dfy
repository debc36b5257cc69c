/**
 From a parsed file to its chunks: the fallback parser (backend/app/parsing/index.py) and
 `_materialize_file` (backend/app/services/indexing.py).
 */
module FileChunks {
  import opened Options
  import opened Lines
  import opened ChunkSplitter

  /** A stored file row; `accepted` is `indexing_status == "accepted"`. */
  datatype File = File(path: string, contentHash: string, accepted: bool, content: Option<string>) {
    function Text(): string { if content.Some? then content.value else "" }
  }

  datatype Symbol = Symbol(kind: string, name: string, qualifiedName: string, startLine: nat, endLine: nat,
                           signature: Option<string>, docstring: Option<string>)

  datatype Parsed = Parsed(symbols: seq<Symbol>, imports: seq<string>, moduleName: Option<string>, fallbackUsed: bool)

  datatype Chunk = Chunk(id: string, path: string, symbolName: Option<string>, qualifiedName: Option<string>,
                         symbolType: string, startLine: nat, endLine: nat, partNumber: nat, partCount: nat,
                         contentHash: string, exactContent: string, searchText: string)

  // ----- Text helpers -----

  function Digit(d: nat): (c: char)
    requires d < 10
    ensures '0' <= c <= '9' && c as int == '0' as int + d
  {
    ('0' as int + d) as char
  }

  function Decimal(n: nat): (s: string)
    ensures |s| > 0 && forall i :: 0 <= i < |s| ==> '0' <= s[i] <= '9'
  {
    if n < 10 then [Digit(n)] else Decimal(n / 10) + [Digit(n % 10)]
  }

  /** `sep.join(parts)` for a one-character separator. */
  function JoinWith(sep: char, parts: seq<string>): string {
    if |parts| == 0 then "" else if |parts| == 1 then parts[0] else parts[0] + [sep] + JoinWith(sep, parts[1..])
  }

  /** `filter(None, parts)`: drops missing and empty strings. */
  function Present(parts: seq<Option<string>>): seq<string> {
    if parts == [] then []
    else (if parts[0].Some? && parts[0].value != "" then [parts[0].value] else []) + Present(parts[1..])
  }

  function OrElse(name: Option<string>, other: string): string {
    if name.Some? && name.value != "" then name.value else other
  }

  // ----- The fallback parser -----

  const WINDOW: nat := 120

  function Window(stem: string, moduleName: Option<string>, lines: seq<string>, start: nat): Symbol {
    var end := Min(start + WINDOW - 1, |lines|);
    var range := ":" + Decimal(start) + "-" + Decimal(Max(end, 0));
    Symbol("text_chunk", stem + range, OrElse(moduleName, stem) + range, start, Max(end, 0),
           Some(Join(Slice(lines, start, Max(end, 0)))), None)
  }

  function WindowsFrom(stem: string, moduleName: Option<string>, lines: seq<string>, start: nat): seq<Symbol>
    decreases |lines| + 1 - start
  {
    if start > |lines| then []
    else [Window(stem, moduleName, lines, start)] + WindowsFrom(stem, moduleName, lines, start + WINDOW)
  }

  function FallbackSymbols(stem: string, moduleName: Option<string>, text: string): seq<Symbol> {
    var windows := WindowsFrom(stem, moduleName, SplitLines(text), 1);
    if windows == [] then [Symbol("text_chunk", stem, OrElse(moduleName, stem), 1, 1, Some(""), None)] else windows
  }

  method FallbackParsedFile(stem: string, moduleName: Option<string>, text: string) returns (parsed: Parsed)
    ensures parsed == Parsed(FallbackSymbols(stem, moduleName, text), [], moduleName, true)
  {
    hide Join, SplitLines, OrElse, Decimal, Slice;
    var lines := SplitLines(text);
    var symbols: seq<Symbol> := [];
    var start: nat := 1;
    ghost var all := WindowsFrom(stem, moduleName, lines, 1);
    while start < |lines| + 1
      invariant symbols + WindowsFrom(stem, moduleName, lines, start) == all
      decreases |lines| + 1 - start
    {
      var end := Min(start + WINDOW - 1, |lines|);
      var range := ":" + Decimal(start) + "-" + Decimal(end);
      symbols := symbols + [Symbol("text_chunk", stem + range, OrElse(moduleName, stem) + range, start, end,
                                   Some(LineSlice(text, start, end)), None)];
      start := start + WINDOW;
    }
    if symbols == [] {
      symbols := [Symbol("text_chunk", stem, OrElse(moduleName, stem), 1, 1, Some(""), None)];
    }
    return Parsed(symbols, [], moduleName, true);
  }

  /** The lines the symbols point at, in order. */
  function CoveredLines(symbols: seq<Symbol>, lines: seq<string>): seq<string> {
    if symbols == [] then []
    else Slice(lines, symbols[0].startLine, symbols[0].endLine) + CoveredLines(symbols[1..], lines)
  }

  lemma {:induction false} WindowSlice(stem: string, moduleName: Option<string>, lines: seq<string>, start: nat)
    requires 1 <= start <= |lines|
    ensures var w := Window(stem, moduleName, lines, start);
            && w.endLine == Min(start + WINDOW - 1, |lines|)
            && Slice(lines, w.startLine, w.endLine) == lines[start - 1..w.endLine]
  {
    hide Join, Decimal, OrElse;
  }

  lemma {:induction false} WindowsStep(stem: string, moduleName: Option<string>, lines: seq<string>, start: nat)
    ensures start > |lines| ==> CoveredLines(WindowsFrom(stem, moduleName, lines, start), lines) == []
    ensures start <= |lines| ==>
              var first := Window(stem, moduleName, lines, start);
              CoveredLines(WindowsFrom(stem, moduleName, lines, start), lines)
              == Slice(lines, first.startLine, first.endLine)
                 + CoveredLines(WindowsFrom(stem, moduleName, lines, start + WINDOW), lines)
  {
    hide Window, Slice;
    if start <= |lines| {
      assert WindowsFrom(stem, moduleName, lines, start)[1..] == WindowsFrom(stem, moduleName, lines, start + WINDOW);
    }
  }

  lemma {:induction false} WindowsTileFrom(stem: string, moduleName: Option<string>, lines: seq<string>, start: nat)
    requires 1 <= start <= |lines| + WINDOW
    ensures CoveredLines(WindowsFrom(stem, moduleName, lines, start), lines)
         == if start <= |lines| then lines[start - 1..] else []
    decreases |lines| + WINDOW - start
  {
    hide CoveredLines, WindowsFrom, Window, Slice;
    WindowsStep(stem, moduleName, lines, start);
    if start <= |lines| {
      var end := Window(stem, moduleName, lines, start).endLine;
      WindowsTileFrom(stem, moduleName, lines, start + WINDOW);
      WindowSlice(stem, moduleName, lines, start);
      if start + WINDOW <= |lines| {
        assert lines[start - 1..] == lines[start - 1..end] + lines[end..];
      }
    }
  }

  /** The fallback windows tile the file: every line once, in order, each signature its own window's text. */
  lemma {:induction false} WindowsTileTheFile(stem: string, moduleName: Option<string>, text: string)
    ensures CoveredLines(FallbackSymbols(stem, moduleName, text), SplitLines(text)) == SplitLines(text)
  {
    WindowsTileFrom(stem, moduleName, SplitLines(text), 1);
    if text != "" {
      assert SplitLines(text)[0..] == SplitLines(text);
    }
  }

  lemma {:induction false} WindowAt(stem: string, moduleName: Option<string>, lines: seq<string>, start: nat, k: nat)
    requires start >= 1 && start + WINDOW * k <= |lines|
    ensures k < |WindowsFrom(stem, moduleName, lines, start)|
    ensures WindowsFrom(stem, moduleName, lines, start)[k] == Window(stem, moduleName, lines, start + WINDOW * k)
    decreases k
  {
    hide Window;
    if k > 0 {
      WindowAt(stem, moduleName, lines, start + WINDOW, k - 1);
    }
  }

  // ----- Chunks of one file -----

  function SourceText(text: string, symbol: Symbol): string {
    var slice := LineSlice(text, symbol.startLine, symbol.endLine);
    if Blank(slice) then text else slice
  }

  /** The name that UUID5 turns into the chunk id; UUID5 is taken to be injective. */
  function ChunkId(revision: string, path: string, hash: string, start: nat, end: nat, part: nat): string {
    JoinWith('|', [revision, path, hash, Decimal(start), Decimal(end), Decimal(part)])
  }

  function SymbolSearchText(path: string, imports: seq<string>, symbol: Symbol, text: string): string {
    Join(Present([Some(path), Some(symbol.qualifiedName), symbol.signature, symbol.docstring,
                  Some(JoinWith(' ', imports)), Some(text)]))
  }

  function PartChunk(revision: string, path: string, imports: seq<string>, symbol: Symbol, part: Part, number: nat,
                     count: nat, digest: string -> string): Chunk
  {
    var hash := digest(part.text);
    Chunk(ChunkId(revision, path, hash, part.start, part.end, number), path,
          Some(symbol.name), Some(symbol.qualifiedName), symbol.kind, part.start, part.end, number, count,
          hash, part.text, SymbolSearchText(path, imports, symbol, part.text))
  }

  function SymbolChunks(revision: string, file: File, parsed: Parsed, symbol: Symbol, lim: Limits,
                        digest: string -> string): (chunks: seq<Chunk>)
    requires lim.maxLines >= 1
    ensures |chunks| == |Split(SourceText(file.Text(), symbol), lim)| > 0
  {
    var parts := Split(SourceText(file.Text(), symbol), lim);
    seq(|parts|, i requires 0 <= i < |parts| =>
      PartChunk(revision, file.path, parsed.imports, symbol, parts[i], i + 1, |parts|, digest))
  }

  function ChunksOfFirst(revision: string, file: File, parsed: Parsed, lim: Limits, digest: string -> string,
                         k: nat): (chunks: seq<Chunk>)
    requires lim.maxLines >= 1 && k <= |parsed.symbols|
    ensures |chunks| >= k
  {
    if k == 0 then []
    else ChunksOfFirst(revision, file, parsed, lim, digest, k - 1)
         + SymbolChunks(revision, file, parsed, parsed.symbols[k - 1], lim, digest)
  }

  lemma {:induction false} FirstSteps(revision: string, file: File, parsed: Parsed, lim: Limits,
                                      digest: string -> string, k: nat)
    requires lim.maxLines >= 1 && k <= |parsed.symbols|
    ensures var first := ChunksOfFirst(revision, file, parsed, lim, digest, k);
            if k == 0 then first == []
            else first == ChunksOfFirst(revision, file, parsed, lim, digest, k - 1)
                        + SymbolChunks(revision, file, parsed, parsed.symbols[k - 1], lim, digest)
  {
    hide SymbolChunks;
  }

  function WholeFileChunk(revision: string, file: File, parsed: Parsed, digest: string -> string): Chunk {
    var text := file.Text();
    var hash := digest(text);
    Chunk(JoinWith('|', [revision, file.path, hash, "1", "1", "1"]), file.path, None, None, "text_chunk",
          1, Max(|SplitLines(text)|, 1), 1, 1, hash, text,
          Join(Present([Some(file.path), parsed.moduleName, Some(text)])))
  }

  /** Every accepted file yields at least one chunk. */
  function Materialize(revision: string, file: File, parsed: Parsed, lim: Limits,
                       digest: string -> string): (chunks: seq<Chunk>)
    requires lim.maxLines >= 1
    ensures |chunks| >= 1
  {
    if parsed.symbols == [] then [WholeFileChunk(revision, file, parsed, digest)]
    else ChunksOfFirst(revision, file, parsed, lim, digest, |parsed.symbols|)
  }

  method MaterializeFile(revision: string, file: File, parsed: Parsed, lim: Limits, digest: string -> string)
    returns (chunks: seq<Chunk>)
    requires lim.maxLines >= 1
    ensures chunks == Materialize(revision, file, parsed, lim, digest)
  {
    hide Join, Split, SplitLines, LineSlice, Blank, SymbolSearchText, ChunkId, WholeFileChunk;
    var text := file.Text();
    chunks := [];
    for s := 0 to |parsed.symbols|
      invariant chunks == ChunksOfFirst(revision, file, parsed, lim, digest, s)
    {
      var symbol := parsed.symbols[s];
      var sourceText := LineSlice(text, symbol.startLine, symbol.endLine);
      if Blank(sourceText) {
        sourceText := text;
      }
      var parts := SplitChunkText(sourceText, lim);
      ghost var before, own := chunks, SymbolChunks(revision, file, parsed, symbol, lim, digest);
      for i := 0 to |parts|
        invariant chunks == before + own[..i]
      {
        var hash := digest(parts[i].text);
        var searchText := SymbolSearchText(file.path, parsed.imports, symbol, parts[i].text);
        var id := ChunkId(revision, file.path, hash, parts[i].start, parts[i].end, i + 1);
        var chunk := Chunk(id, file.path, Some(symbol.name), Some(symbol.qualifiedName), symbol.kind,
                           parts[i].start, parts[i].end, i + 1, |parts|, hash, parts[i].text, searchText);
        assert chunk == own[i] && own[..i + 1] == own[..i] + [own[i]];
        chunks := chunks + [chunk];
      }
      assert own[..|parts|] == own;
    }
    if parsed.symbols == [] {
      chunks := [WholeFileChunk(revision, file, parsed, digest)];
    }
  }

  // ----- What every chunk holds -----

  /** The fallback's symbols, field by field: window k of 120 lines, named by its range. */
  lemma {:induction false} FallbackSymbolIs(stem: string, moduleName: Option<string>, text: string, k: nat)
    requires text != "" && 120 * k < |SplitLines(text)|
    ensures k < |FallbackSymbols(stem, moduleName, text)|
    ensures var s, n := FallbackSymbols(stem, moduleName, text)[k], |SplitLines(text)|;
            var prefix := if moduleName.Some? && moduleName.value != "" then moduleName.value else stem;
            && s.startLine == 120 * k + 1 && s.endLine == (if 120 * k + 120 <= n then 120 * k + 120 else n)
            && s.kind == "text_chunk" && s.docstring == None
            && s.name == stem + ":" + Decimal(s.startLine) + "-" + Decimal(s.endLine)
            && s.qualifiedName == prefix + ":" + Decimal(s.startLine) + "-" + Decimal(s.endLine)
            && s.signature == Some(Join(SplitLines(text)[s.startLine - 1..s.endLine]))
  {
    hide Join, SplitLines, WindowsFrom, Decimal, Window;
    WindowAt(stem, moduleName, SplitLines(text), 1, k);
    WindowFields(stem, moduleName, SplitLines(text), 120 * k + 1);
  }

  lemma {:induction false} WindowFields(stem: string, moduleName: Option<string>, lines: seq<string>, start: nat)
    requires 1 <= start <= |lines|
    ensures var w := Window(stem, moduleName, lines, start);
            var prefix := if moduleName.Some? && moduleName.value != "" then moduleName.value else stem;
            && w.startLine == start && w.endLine == (if start + 119 <= |lines| then start + 119 else |lines|)
            && w.kind == "text_chunk" && w.docstring == None
            && w.name == stem + ":" + Decimal(w.startLine) + "-" + Decimal(w.endLine)
            && w.qualifiedName == prefix + ":" + Decimal(w.startLine) + "-" + Decimal(w.endLine)
            && w.signature == Some(Join(lines[w.startLine - 1..w.endLine]))
  {
    WindowSlice(stem, moduleName, lines, start);
    hide Join, Decimal, Slice;
    var w := Window(stem, moduleName, lines, start);
    Regroup(stem, Decimal(w.startLine), Decimal(w.endLine));
    Regroup(OrElse(moduleName, stem), Decimal(w.startLine), Decimal(w.endLine));
  }

  lemma {:induction false} Regroup(name: string, first: string, last: string)
    ensures name + (":" + first + "-" + last) == name + ":" + first + "-" + last
  {
  }

  lemma {:induction false} WindowCount(stem: string, moduleName: Option<string>, lines: seq<string>, start: nat)
    requires start >= 1
    ensures |WindowsFrom(stem, moduleName, lines, start)| == CeilDiv(Max(|lines| + 1 - start, 0), WINDOW)
    decreases |lines| + WINDOW - start
  {
    hide Window, CeilDiv;
    if start <= |lines| {
      WindowCount(stem, moduleName, lines, start + WINDOW);
      if start + WINDOW <= |lines| + 1 {
        CeilDivStep(|lines| + 1 - start - WINDOW, WINDOW);
      } else {
        CeilDivSmall(|lines| + 1 - start, WINDOW);
        CeilDivSmall(0, WINDOW);
      }
    } else {
      CeilDivSmall(0, WINDOW);
    }
  }

  /** The fallback makes one symbol per window of 120 lines, and one for an empty file. */
  lemma {:induction false} FallbackSymbolCount(stem: string, moduleName: Option<string>, text: string)
    ensures var n := |SplitLines(text)|;
            |FallbackSymbols(stem, moduleName, text)| == if n == 0 then 1 else CeilDiv(n, 120)
    ensures text == "" ==>
              var s := FallbackSymbols(stem, moduleName, text)[0];
              && s.kind == "text_chunk" && s.name == stem && s.startLine == 1 && s.endLine == 1
              && s.qualifiedName == (if moduleName.Some? && moduleName.value != "" then moduleName.value else stem)
              && s.signature == Some("") && s.docstring == None
  {
    hide SplitLines, Window, CeilDiv;
    var lines := SplitLines(text);
    WindowCount(stem, moduleName, lines, 1);
    assert lines != [] ==> WindowsFrom(stem, moduleName, lines, 1) != [];
  }

  /** Some line of the range has a visible character. */
  predicate AnyVisible(lines: seq<string>, first: nat, last: nat) {
    exists i :: first <= i < last && i < |lines| && !Blank(lines[i])
  }

  /** What a symbol is chunked from: the lines it points at, unless all of them are blank; then the whole file. */
  lemma {:induction false} SourceTextIs(text: string, symbol: Symbol)
    ensures var lines := SplitLines(text);
            var first: nat := if symbol.startLine == 0 then 0 else symbol.startLine - 1;
            var last: nat := if symbol.endLine <= |lines| then symbol.endLine else |lines|;
            SourceText(text, symbol) ==
            if first < last && AnyVisible(lines, first, last) then Join(lines[first..last]) else text
  {
    var lines := SplitLines(text);
    var first: nat := if symbol.startLine == 0 then 0 else symbol.startLine - 1;
    var last: nat := if symbol.endLine <= |lines| then symbol.endLine else |lines|;
    var own := if first < last then lines[first..last] else [];
    SliceIs(lines, symbol.startLine, symbol.endLine, own);
    SourceOfSlice(text, symbol);
    VisibleIff(lines, first, last, own);
    hide *;
  }

  lemma {:induction false} SliceIs(lines: seq<string>, startLine: nat, endLine: nat, own: seq<string>)
    requires var first: nat := if startLine == 0 then 0 else startLine - 1;
             var last: nat := if endLine <= |lines| then endLine else |lines|;
             own == if first < last then lines[first..last] else []
    ensures Slice(lines, startLine, endLine) == own
  {
  }

  lemma {:induction false} SourceOfSlice(text: string, symbol: Symbol)
    ensures var own := Slice(SplitLines(text), symbol.startLine, symbol.endLine);
            SourceText(text, symbol) == if Blank(Join(own)) then text else Join(own)
  {
    hide Blank, Join, SplitLines, Slice;
  }

  lemma {:induction false} VisibleIff(lines: seq<string>, first: nat, last: nat, own: seq<string>)
    requires last <= |lines| && own == if first < last then lines[first..last] else []
    ensures !Blank(Join(own)) <==> first < last && AnyVisible(lines, first, last)
  {
    hide Join, Blank;
    if AnyVisible(lines, first, last) {
      var i :| first <= i < last && i < |lines| && !Blank(lines[i]);
      assert own[i - first] == lines[i];
      JoinOfVisibleLineIsVisible(own, i - first);
    } else {
      forall i | 0 <= i < |own| ensures Blank(own[i]) {
        assert own[i] == lines[first + i];
      }
      JoinOfBlankLinesIsBlank(own);
    }
  }

  /** The id names revision, path, hash, first line, last line and part number, in this order. */
  lemma {:induction false} ChunkIdIs(revision: string, path: string, hash: string, start: nat, end: nat, part: nat)
    ensures ChunkId(revision, path, hash, start, end, part)
         == revision + "|" + path + "|" + hash + "|" + Decimal(start) + "|" + Decimal(end) + "|" + Decimal(part)
  {
    hide Decimal;
    var fields := [revision, path, hash, Decimal(start), Decimal(end), Decimal(part)];
    var tail := Decimal(end) + "|" + Decimal(part);
    assert JoinWith('|', fields[5..]) == Decimal(part);
    assert JoinWith('|', fields[4..]) == tail by { assert fields[4..][1..] == fields[5..]; }
    assert JoinWith('|', fields[3..]) == Decimal(start) + "|" + tail by { assert fields[3..][1..] == fields[4..]; }
    assert JoinWith('|', fields[2..]) == hash + "|" + (Decimal(start) + "|" + tail) by {
      assert fields[2..][1..] == fields[3..];
    }
    assert JoinWith('|', fields[1..]) == path + "|" + (hash + "|" + (Decimal(start) + "|" + tail)) by {
      assert fields[1..][1..] == fields[2..];
    }
  }

  /** How many parts the symbols before the k-th have. */
  function PartsBefore(text: string, symbols: seq<Symbol>, lim: Limits, k: nat): nat
    requires lim.maxLines >= 1 && k <= |symbols|
  {
    if k == 0 then 0 else PartsBefore(text, symbols, lim, k - 1) + |Split(SourceText(text, symbols[k - 1]), lim)|
  }

  lemma {:induction false} FirstCount(revision: string, file: File, parsed: Parsed, lim: Limits,
                                      digest: string -> string, k: nat)
    requires lim.maxLines >= 1 && k <= |parsed.symbols|
    ensures |ChunksOfFirst(revision, file, parsed, lim, digest, k)| == PartsBefore(file.Text(), parsed.symbols, lim, k)
  {
    hide Split, SourceText, SymbolChunks;
    if k > 0 {
      FirstCount(revision, file, parsed, lim, digest, k - 1);
    }
  }

  /** The text of a file is its stored content, and empty without one. */
  lemma {:induction false} TextIs(file: File)
    ensures file.content.Some? ==> file.Text() == file.content.value
    ensures file.content.None? ==> file.Text() == ""
  {
  }

  /** What the p-th chunk of a symbol holds, when the symbol's source text has these lines and this many parts. */
  ghost predicate HoldsPart(c: Chunk, revision: string, path: string, symbol: Symbol, lines: seq<string>, p: nat,
                            count: nat, digest: string -> string)
  {
    && c.path == path && c.symbolType == symbol.kind
    && c.symbolName == Some(symbol.name) && c.qualifiedName == Some(symbol.qualifiedName)
    && 1 <= c.startLine <= c.endLine <= |lines|
    && c.exactContent == Join(lines[c.startLine - 1..c.endLine])
    && c.contentHash == digest(c.exactContent)
    && c.partNumber == p + 1 && c.partCount == count
    && c.id == revision + "|" + path + "|" + c.contentHash + "|" + Decimal(c.startLine) + "|" + Decimal(c.endLine)
               + "|" + Decimal(c.partNumber)
  }

  /** The chunks of a file with symbols: symbol by symbol, each with its parts in order, and nothing else. */
  lemma {:induction false} SymbolChunksHold(revision: string, file: File, parsed: Parsed, lim: Limits,
                                            digest: string -> string, k: nat, p: nat)
    requires lim.maxLines >= 1 && k < |parsed.symbols|
    requires p < |Split(SourceText(file.Text(), parsed.symbols[k]), lim)|
    ensures var chunks := Materialize(revision, file, parsed, lim, digest);
            var source := SourceText(file.Text(), parsed.symbols[k]);
            var c := PartsBefore(file.Text(), parsed.symbols, lim, k) + p;
            && |chunks| == PartsBefore(file.Text(), parsed.symbols, lim, |parsed.symbols|)
            && c < |chunks|
            && HoldsPart(chunks[c], revision, file.path, parsed.symbols[k], SourceLines(source), p,
                         |Split(source, lim)|, digest)
            && chunks[c].startLine == Split(source, lim)[p].start && chunks[c].endLine == Split(source, lim)[p].end
  {
    hide *;
    SymbolChunkAt(revision, file, parsed, lim, digest, k, p);
    PartIsHeld(revision, file, parsed, parsed.symbols[k], lim, digest, p);
  }

  lemma {:induction false} SymbolChunkAt(revision: string, file: File, parsed: Parsed, lim: Limits,
                                         digest: string -> string, k: nat, p: nat)
    requires lim.maxLines >= 1 && k < |parsed.symbols|
    requires p < |Split(SourceText(file.Text(), parsed.symbols[k]), lim)|
    ensures var chunks := Materialize(revision, file, parsed, lim, digest);
            var c := PartsBefore(file.Text(), parsed.symbols, lim, k) + p;
            && |chunks| == PartsBefore(file.Text(), parsed.symbols, lim, |parsed.symbols|)
            && c < |chunks| && chunks[c] == SymbolChunks(revision, file, parsed, parsed.symbols[k], lim, digest)[p]
  {
    hide *;
    MaterializeSymbols(revision, file, parsed, lim, digest);
    FirstCount(revision, file, parsed, lim, digest, |parsed.symbols|);
    FirstCount(revision, file, parsed, lim, digest, k);
    FirstSteps(revision, file, parsed, lim, digest, k + 1);
    PrefixKeeps(revision, file, parsed, lim, digest, k + 1, |parsed.symbols|);
  }

  lemma {:induction false} PartIsHeld(revision: string, file: File, parsed: Parsed, symbol: Symbol, lim: Limits,
                                      digest: string -> string, p: nat)
    requires lim.maxLines >= 1 && p < |Split(SourceText(file.Text(), symbol), lim)|
    ensures var source, c := SourceText(file.Text(), symbol),
            SymbolChunks(revision, file, parsed, symbol, lim, digest)[p];
            && HoldsPart(c, revision, file.path, symbol, SourceLines(source), p, |Split(source, lim)|, digest)
            && c.startLine == Split(source, lim)[p].start && c.endLine == Split(source, lim)[p].end
  {
    hide SourceText, ChunkId, SymbolSearchText, SplitFrom, Join, Decimal, SourceLines;
    var source := SourceText(file.Text(), symbol);
    var part := Split(source, lim)[p];
    PartsAreTheirRanges(SourceLines(source), 0, lim, p);
    ChunkIdIs(revision, file.path, digest(part.text), part.start, part.end, p + 1);
  }

  /** A file without symbols is one chunk: the whole text, from line 1 to its last line. */
  lemma {:induction false} WholeFileIsOneChunk(revision: string, file: File, parsed: Parsed, lim: Limits,
                                               digest: string -> string)
    requires lim.maxLines >= 1 && parsed.symbols == []
    ensures var chunks, n := Materialize(revision, file, parsed, lim, digest), |SplitLines(file.Text())|;
            && |chunks| == 1
            && var c := chunks[0];
               && c.path == file.path && c.symbolName == None && c.qualifiedName == None && c.symbolType == "text_chunk"
               && c.startLine == 1 && c.endLine == (if n == 0 then 1 else n)
               && c.partNumber == 1 && c.partCount == 1
               && c.exactContent == file.Text() && c.contentHash == digest(file.Text())
               && c.id == revision + "|" + file.path + "|" + digest(file.Text()) + "|1|1|1"
  {
    hide SplitLines, Join;
    ChunkIdIs(revision, file.path, digest(file.Text()), 1, 1, 1);
    assert Decimal(1) == "1";
    var id := revision + "|" + file.path + "|" + digest(file.Text());
    assert id + "|" + "1" + "|" + "1" + "|" + "1" == id + "|1|1|1";
  }

  // ----- End-to-end coverage -----

  predicate HasLine(text: string, line: string) {
    line in SplitLines(text)
  }

  /** Where the p-th chunk of the k-th symbol ends up. */
  lemma {:induction false} ChunkPosition(revision: string, file: File, parsed: Parsed, lim: Limits,
                                         digest: string -> string, n: nat, k: nat, p: nat) returns (c: nat)
    requires lim.maxLines >= 1 && k < n <= |parsed.symbols|
    requires p < |SymbolChunks(revision, file, parsed, parsed.symbols[k], lim, digest)|
    ensures c < |ChunksOfFirst(revision, file, parsed, lim, digest, n)|
    ensures ChunksOfFirst(revision, file, parsed, lim, digest, n)[c]
         == SymbolChunks(revision, file, parsed, parsed.symbols[k], lim, digest)[p]
  {
    hide *;
    FirstSteps(revision, file, parsed, lim, digest, n);
    if k == n - 1 {
      c := |ChunksOfFirst(revision, file, parsed, lim, digest, k)| + p;
    } else {
      c := ChunkPosition(revision, file, parsed, lim, digest, n - 1, k, p);
    }
  }

  /** The splitter keeps every non-empty line of the text it is given in some part. */
  lemma {:induction false} SplitKeepsLine(lines: seq<string>, lim: Limits, i: nat) returns (k: nat)
    requires lim.maxLines >= 1 && lim.overlap >= 0 && AllLines(lines)
    requires i < |lines| && lines[i] != ""
    ensures k < |Split(Join(lines), lim)|
    ensures HasLine(Split(Join(lines), lim)[k].text, lines[i])
  {
    hide *;
    var text := Join(lines);
    var source := SourceLines(text);
    SourceLinesOfJoin(lines, i);
    k := EveryLineIsInAPart(source, 0, lim, i);
    PartsAreTheirRanges(source, 0, lim, k);
    var part := SplitFrom(source, 0, lim)[k];
    assert Split(text, lim)[k] == part by { SplitIs(text, lim); }
    LineOfJoinedSlice(source, part.start - 1, part.end, i);
  }

  lemma {:induction false} SourceLinesOfJoin(lines: seq<string>, i: nat)
    requires AllLines(lines) && i < |lines| && lines[i] != ""
    ensures i < |SourceLines(Join(lines))| && SourceLines(Join(lines))[i] == lines[i]
  {
    SplitLinesOfJoin(lines);
  }

  lemma {:induction false} SplitIs(text: string, lim: Limits)
    requires lim.maxLines >= 1
    ensures Split(text, lim) == SplitFrom(SourceLines(text), 0, lim)
  {
  }

  lemma {:induction false} LineOfJoinedSlice(lines: seq<string>, lo: nat, hi: nat, i: nat)
    requires AllLines(lines) && lo <= i < hi <= |lines| && lines[i] != ""
    ensures HasLine(Join(lines[lo..hi]), lines[i])
  {
    var own := lines[lo..hi];
    SplitLinesOfJoin(own);
    assert DropTrailingEmpty(own)[i - lo] == lines[i];
  }

  /** The fallback window a line falls in, and the source text its symbol is chunked from. */
  lemma {:induction false} WindowOfLine(stem: string, moduleName: Option<string>, text: string, i: nat)
    returns (w: nat, own: seq<string>)
    requires i < |SplitLines(text)| && !Blank(SplitLines(text)[i])
    ensures w < |FallbackSymbols(stem, moduleName, text)|
    ensures SourceText(text, FallbackSymbols(stem, moduleName, text)[w]) == Join(own)
    ensures AllLines(own) && WINDOW * w <= i < WINDOW * w + |own| && own[i - WINDOW * w] == SplitLines(text)[i]
  {
    hide Join, SplitLines, WindowsFrom, Blank, Decimal;
    var lines := SplitLines(text);
    w := i / WINDOW;
    WindowAt(stem, moduleName, lines, 1, w);
    var end := Min(WINDOW * w + WINDOW, |lines|);
    own := lines[WINDOW * w..end];
    JoinOfVisibleLineIsVisible(own, i - WINDOW * w);
    assert Slice(lines, WINDOW * w + 1, end) == own;
  }

  /**
   For a file that was parsed by the fallback or yielded no symbols, every non-blank line of the
   file is a line of some chunk's exact content.
   */
  lemma {:induction false} NonBlankLinesAreIndexed(revision: string, file: File, parsed: Parsed, lim: Limits,
                                                   digest: string -> string, stem: string, i: nat) returns (c: nat)
    requires lim.maxLines >= 1 && lim.overlap >= 0
    requires parsed.symbols == [] || parsed.symbols == FallbackSymbols(stem, parsed.moduleName, file.Text())
    requires i < |SplitLines(file.Text())| && !Blank(SplitLines(file.Text())[i])
    ensures var chunks := Materialize(revision, file, parsed, lim, digest);
            c < |chunks| && HasLine(chunks[c].exactContent, SplitLines(file.Text())[i])
  {
    hide *;
    if parsed.symbols == [] {
      c := 0;
      WholeFileHasLine(revision, file, parsed, lim, digest, i);
    } else {
      var w, own := WindowOfLine(stem, parsed.moduleName, file.Text(), i);
      VisibleIsNotEmpty(own[i - WINDOW * w]);
      c := SourceLineIsIndexed(revision, file, parsed, lim, digest, w, own, i - WINDOW * w);
      MaterializeSymbols(revision, file, parsed, lim, digest);
    }
  }

  lemma {:induction false} WholeFileHasLine(revision: string, file: File, parsed: Parsed, lim: Limits,
                                            digest: string -> string, i: nat)
    requires lim.maxLines >= 1 && parsed.symbols == [] && i < |SplitLines(file.Text())|
    ensures HasLine(Materialize(revision, file, parsed, lim, digest)[0].exactContent, SplitLines(file.Text())[i])
  {
    hide SplitLines, Join;
  }

  lemma {:induction false} VisibleIsNotEmpty(line: string)
    ensures !Blank(line) ==> line != ""
  {
  }

  lemma {:induction false} MaterializeSymbols(revision: string, file: File, parsed: Parsed, lim: Limits,
                                              digest: string -> string)
    requires lim.maxLines >= 1 && parsed.symbols != []
    ensures Materialize(revision, file, parsed, lim, digest)
         == ChunksOfFirst(revision, file, parsed, lim, digest, |parsed.symbols|)
  {
    hide ChunksOfFirst;
  }

  lemma {:induction false} SourceLineIsIndexed(revision: string, file: File, parsed: Parsed, lim: Limits,
                                               digest: string -> string, w: nat, own: seq<string>,
                                               i: nat) returns (c: nat)
    requires lim.maxLines >= 1 && lim.overlap >= 0 && w < |parsed.symbols|
    requires SourceText(file.Text(), parsed.symbols[w]) == Join(own)
    requires AllLines(own) && i < |own| && own[i] != ""
    ensures var chunks := ChunksOfFirst(revision, file, parsed, lim, digest, |parsed.symbols|);
            c < |chunks| && HasLine(chunks[c].exactContent, own[i])
  {
    hide *;
    var p := SplitKeepsLine(own, lim, i);
    SymbolChunkContent(revision, file, parsed, parsed.symbols[w], lim, digest, p);
    c := ChunkPosition(revision, file, parsed, lim, digest, |parsed.symbols|, w, p);
  }

  lemma {:induction false} SymbolChunkContent(revision: string, file: File, parsed: Parsed, symbol: Symbol,
                                              lim: Limits, digest: string -> string, p: nat)
    requires lim.maxLines >= 1 && p < |Split(SourceText(file.Text(), symbol), lim)|
    ensures SymbolChunks(revision, file, parsed, symbol, lim, digest)[p].exactContent
         == Split(SourceText(file.Text(), symbol), lim)[p].text
  {
    hide Split, SourceText, SymbolSearchText, ChunkId;
  }

  /**
   Two symbols of a file whose source texts have an equal part produce chunks with the same id, although the
   symbols differ: the id omits the symbol, and line numbers are relative to the slice.
   */
  lemma {:induction false} SharedPartSharesId(revision: string, file: File, parsed: Parsed, lim: Limits,
                                              digest: string -> string, a: nat, b: nat, p: nat)
    returns (c: nat, d: nat)
    requires lim.maxLines >= 1 && a < b < |parsed.symbols|
    requires p < |Split(SourceText(file.Text(), parsed.symbols[a]), lim)|
    requires p < |Split(SourceText(file.Text(), parsed.symbols[b]), lim)|
    requires Split(SourceText(file.Text(), parsed.symbols[a]), lim)[p]
          == Split(SourceText(file.Text(), parsed.symbols[b]), lim)[p]
    ensures var chunks := Materialize(revision, file, parsed, lim, digest);
            c < d < |chunks| && chunks[c].id == chunks[d].id
            && chunks[c].symbolName == Some(parsed.symbols[a].name)
            && chunks[d].symbolName == Some(parsed.symbols[b].name)
  {
    hide Split, Join, LineSlice, SourceText;
    c := ChunkPosition(revision, file, parsed, lim, digest, b, a, p);
    d := |ChunksOfFirst(revision, file, parsed, lim, digest, b)| + p;
    PrefixKeeps(revision, file, parsed, lim, digest, b, |parsed.symbols|);
    PrefixKeeps(revision, file, parsed, lim, digest, b + 1, |parsed.symbols|);
  }

  lemma {:induction false} PrefixKeeps(revision: string, file: File, parsed: Parsed, lim: Limits,
                                       digest: string -> string, k: nat, n: nat)
    requires lim.maxLines >= 1 && k <= n <= |parsed.symbols|
    ensures ChunksOfFirst(revision, file, parsed, lim, digest, k)
         <= ChunksOfFirst(revision, file, parsed, lim, digest, n)
    decreases n
  {
    hide SymbolChunks, Split;
    if k < n {
      PrefixKeeps(revision, file, parsed, lim, digest, k, n - 1);
    }
  }
}
