/**
 When the embedding cache is exact: what its key says about a chunk's search text, and what it leaves out
 (backend/app/services/indexing.py).
 */
module CacheKeys {
  import opened Options
  import opened Lines
  import opened ChunkSplitter
  import opened FileChunks
  import opened JoinedFields
  import opened IndexBuild

  /** The hash is hexadecimal and the type one of the parsers' words; path and name may hold the separator. */
  ghost predicate PlainFields(c: Chunk) {
    NoBar(c.contentHash) && NoBar(c.symbolType)
  }

  function Name(c: Chunk): string { OrElse(c.qualifiedName, "") }

  function KeyParts(c: Chunk): seq<string> {
    [c.path, c.contentHash, Decimal(c.startLine), Decimal(c.endLine), Decimal(c.partNumber), Decimal(c.partCount),
     c.symbolType, Name(c)]
  }

  ghost predicate SameFields(c: Chunk, d: Chunk) {
    && c.path == d.path && c.contentHash == d.contentHash && c.symbolType == d.symbolType
    && c.startLine == d.startLine && c.endLine == d.endLine
    && c.partNumber == d.partNumber && c.partCount == d.partCount && Name(c) == Name(d)
  }

  /** Exactly when equal keys mean equal fields: the two paths have equally many separators. */
  lemma {:induction false} KeyFieldsIff(c: Chunk, d: Chunk)
    requires Key(c) == Key(d) && PlainFields(c) && PlainFields(d)
    ensures SameFields(c, d) <==> Bars(c.path) == Bars(d.path)
  {
    if Bars(c.path) == Bars(d.path) {
      var a, b := KeyParts(c), KeyParts(d);
      hide JoinWith, Decimal, ReadDecimal, Name, Bars;
      forall i | 0 <= i < 7 ensures Bars(a[i]) == Bars(b[i]) {
        if i > 0 {
          NoBarIff(a[i]);
          NoBarIff(b[i]);
        }
      }
      JoinWithInjective(a, b);
      assert a[0] == b[0] && a[1] == b[1] && a[2] == b[2] && a[3] == b[3];
      assert a[4] == b[4] && a[5] == b[5] && a[6] == b[6] && a[7] == b[7];
      ReadOfDecimal(c.startLine);
      ReadOfDecimal(d.startLine);
      ReadOfDecimal(c.endLine);
      ReadOfDecimal(d.endLine);
      ReadOfDecimal(c.partNumber);
      ReadOfDecimal(d.partNumber);
      ReadOfDecimal(c.partCount);
      ReadOfDecimal(d.partCount);
    }
  }

  /** The fields between path and name, as they stand in the key. */
  function Middle(c: Chunk): string {
    "|" + JoinWith('|', KeyParts(c)[1..7]) + "|"
  }

  lemma {:induction false} KeyIs(c: Chunk)
    ensures Key(c) == c.path + Middle(c) + Name(c)
  {
    var a := KeyParts(c);
    assert Key(c) == JoinWith('|', a);
    hide JoinWith, Decimal, Name;
    JoinWithSmall(a);
    JoinWithLast(a[1..]);
    assert a[1..][..6] == a[1..7];
  }

  /** A key has the separators of its path and of its name, and seven more. */
  lemma {:induction false} BarsOfKey(c: Chunk)
    requires PlainFields(c)
    ensures Bars(Key(c)) == Bars(c.path) + Bars(Name(c)) + 7
  {
    var a := KeyParts(c);
    assert Key(c) == JoinWith('|', a);
    assert forall i :: 0 < i < 7 ==> NoBar(a[i]);
    hide JoinWith, Bars, Decimal, Name, NoBar;
    BarsOfJoined(a);
    OneCarriesBars(a[1..], 6);
  }

  /**
   The name is missing, or it repeats the separators of the path and ends in another character. So does a module
   name made of a path without a separator in its suffix, with a symbol name or line range behind it.
   */
  ghost predicate NameFollowsPath(c: Chunk) {
    Name(c) == "" || (Name(c)[|Name(c)| - 1] != '|' && Bars(Name(c)) == Bars(c.path))
  }

  /** Keys are not ambiguous when no name holds the separator, and when every name follows its path. */
  lemma {:induction false} EqualKeysEqualBars(c: Chunk, d: Chunk)
    requires Key(c) == Key(d) && PlainFields(c) && PlainFields(d)
    requires (NoBar(Name(c)) && NoBar(Name(d))) || (NameFollowsPath(c) && NameFollowsPath(d))
    ensures Bars(c.path) == Bars(d.path)
  {
    hide Key, Name, Bars;
    BarsOfKey(c);
    BarsOfKey(d);
    if NoBar(Name(c)) && NoBar(Name(d)) {
      NoBarIff(Name(c));
      NoBarIff(Name(d));
    } else {
      KeyEndsInName(c);
      KeyEndsInName(d);
      NoBarIff("");
    }
  }

  lemma {:induction false} KeyEndsInName(c: Chunk)
    ensures Key(c) != ""
    ensures Key(c)[|Key(c)| - 1] == if Name(c) == "" then '|' else Name(c)[|Name(c)| - 1]
  {
    KeyIs(c);
    hide Key, Name, JoinWith;
  }

  /** The condition is needed: whatever the other fields, different paths and names can have the same key. */
  lemma {:induction false} KeysCanBeAmbiguous(c: Chunk, x: string, y: string)
    requires y != ""
    ensures var longer, shorter := c.path + Middle(c) + x, x + Middle(c) + y;
            && longer != c.path
            && Key(c.(path := longer, qualifiedName := Some(y))) == Key(c.(qualifiedName := Some(shorter)))
  {
    var d, e := c.(path := c.path + Middle(c) + x, qualifiedName := Some(y)),
        c.(qualifiedName := Some(x + Middle(c) + y));
    KeyIs(d);
    KeyIs(e);
    assert KeyParts(d)[1..7] == KeyParts(c)[1..7] == KeyParts(e)[1..7];
    assert Middle(d) == Middle(c) == Middle(e) && |Middle(c)| > 0;
    hide Key, Middle;
    assert Name(d) == y && Name(e) == x + Middle(c) + y;
  }

  // ----- What the key leaves out -----

  /** What a chunk is made from: a part of a symbol, or a whole file without symbols. */
  datatype Origin =
    | OfSymbol(revision: string, path: string, imports: seq<string>, symbol: Symbol, part: Part, number: nat,
               count: nat)
    | OfFile(revision: string, file: File, parsed: Parsed)

  function Made(o: Origin, digest: string -> string): Chunk {
    match o
    case OfSymbol(revision, path, imports, symbol, part, number, count) =>
      PartChunk(revision, path, imports, symbol, part, number, count, digest)
    case OfFile(revision, file, parsed) => WholeFileChunk(revision, file, parsed, digest)
  }

  /** The parts of the search text that no field of the key determines, as they are written into it. */
  function Omitted(o: Origin): string {
    match o
    case OfSymbol(_, _, imports, symbol, _, _, _) =>
      Join(Present([symbol.signature, symbol.docstring, Some(JoinWith(' ', imports))]))
    case OfFile(_, _, parsed) => Join(Present([parsed.moduleName]))
  }

  /** `middle` written between lines, and nothing where it is empty. */
  function Around(before: seq<string>, middle: string, after: seq<string>): string {
    if middle == "" then Join(before + after) else Join(before + [middle] + after)
  }

  lemma {:induction false} JoinOfConcat(a: seq<string>, b: seq<string>)
    requires a != [] && b != []
    ensures Join(a + b) == Join(a) + "\n" + Join(b)
  {
    if |a| == 1 {
      assert (a + b)[1..] == b;
    } else {
      assert (a + b)[1..] == a[1..] + b;
      JoinOfConcat(a[1..], b);
    }
  }

  function Lead(before: seq<string>): string { if before == [] then "" else Join(before) + "\n" }

  function Trail(after: seq<string>): string { if after == [] then "" else "\n" + Join(after) }

  lemma {:induction false} JoinOfThree(before: seq<string>, middle: seq<string>, after: seq<string>)
    requires middle != []
    ensures Join(before + middle + after) == Lead(before) + Join(middle) + Trail(after)
    ensures |Join(before + after)| < |Lead(before)| + |Trail(after)| + 1
  {
    hide Join;
    if before == [] {
      assert before + middle == middle && before + after == after;
    } else {
      JoinOfConcat(before, middle);
    }
    if after == [] {
      assert before + middle + after == before + middle && before + after == before;
    } else {
      JoinOfConcat(before + middle, after);
      if before != [] {
        JoinOfConcat(before, after);
      }
    }
    if before == [] && after == [] {
      assert Join(before + after) == "" by { JoinOfNothing(); }
    }
  }

  lemma {:induction false} JoinOfNothing()
    ensures Join([]) == "" && forall s :: Join([s]) == s
  {
  }

  lemma {:induction false} JoinOfSome(lines: seq<string>)
    requires lines != [] && forall i :: 0 <= i < |lines| ==> lines[i] != ""
    ensures Join(lines) != ""
  {
  }

  lemma {:induction false} AroundOfJoined(before: seq<string>, middle: seq<string>, after: seq<string>)
    requires forall i :: 0 <= i < |middle| ==> middle[i] != ""
    ensures Join(before + middle + after) == Around(before, Join(middle), after)
  {
    hide Join;
    JoinOfNothing();
    if middle == [] {
      assert before + middle + after == before + after;
    } else {
      JoinOfSome(middle);
      JoinOfThree(before, middle, after);
      JoinOfThree(before, [Join(middle)], after);
    }
  }

  /** What stands between the same lines can be read back. */
  lemma {:induction false} AroundIsInjective(before: seq<string>, x: string, y: string, after: seq<string>)
    ensures Around(before, x, after) == Around(before, y, after) <==> x == y
  {
    hide Join;
    JoinOfNothing();
    JoinOfThree(before, [x], after);
    JoinOfThree(before, [y], after);
    if x != "" && y != "" && Around(before, x, after) == Around(before, y, after) {
      var s, t := Lead(before) + x + Trail(after), Lead(before) + y + Trail(after);
      assert |x| == |y| && s[|Lead(before)|..|Lead(before)| + |x|] == x && t[|Lead(before)|..|Lead(before)| + |x|] == y;
    }
  }

  lemma {:induction false} PresentOfConcat(a: seq<Option<string>>, b: seq<Option<string>>)
    ensures Present(a + b) == Present(a) + Present(b)
    ensures forall i :: 0 <= i < |Present(a)| ==> Present(a)[i] != ""
  {
    if a == [] {
      assert a + b == b;
    } else {
      assert (a + b)[1..] == a[1..] + b;
      PresentOfConcat(a[1..], b);
    }
  }

  function Names(c: Chunk): seq<string> { Present([Some(c.path), c.qualifiedName]) }

  /** The search text is the omitted parts between fields of the chunk. */
  lemma {:induction false} SearchTextIs(o: Origin, digest: string -> string)
    ensures var c := Made(o, digest);
            && c.searchText == Around(Names(c), Omitted(o), Present([Some(c.exactContent)]))
            && c.contentHash == digest(c.exactContent)
  {
    hide Join, Present, JoinWith, ChunkId, SplitLines;
    var c := Made(o, digest);
    var first, last := [Some(c.path), c.qualifiedName], [Some(c.exactContent)];
    match o {
      case OfSymbol(_, _, imports, symbol, _, _, _) =>
        var middle := [symbol.signature, symbol.docstring, Some(JoinWith(' ', imports))];
        assert [Some(c.path), Some(symbol.qualifiedName), symbol.signature, symbol.docstring,
                Some(JoinWith(' ', imports)),
                Some(c.exactContent)] == first + middle + last;
        SearchTextOfThree(first, middle, last);
      case OfFile(_, _, parsed) =>
        var middle := [parsed.moduleName];
        assert [Some(c.path), parsed.moduleName, Some(c.exactContent)] == [Some(c.path)] + middle + last;
        SearchTextOfThree([Some(c.path)], middle, last);
        NoName(c.path);
    }
  }

  lemma {:induction false} NoName(path: string)
    ensures Present([Some(path), None]) == Present([Some(path)])
  {
    var both: seq<Option<string>> := [Some(path), None];
    assert both[1..] == [None] && both[1..][1..] == [] && [Some(path)][1..] == [];
  }

  lemma {:induction false} SearchTextOfThree(first: seq<Option<string>>, middle: seq<Option<string>>,
                                             last: seq<Option<string>>)
    ensures Join(Present(first + middle + last)) == Around(Present(first), Join(Present(middle)), Present(last))
  {
    hide Join, Present, Around;
    PresentOfConcat(first + middle, last);
    PresentOfConcat(first, middle);
    PresentOfConcat(middle, last);
    AroundOfJoined(Present(first), Present(middle), Present(last));
  }

  ghost predicate Injective(digest: string -> string) {
    forall x, y :: digest(x) == digest(y) ==> x == y
  }

  /** Chunks with equal keys have equal search texts exactly when the parts the key leaves out are equal. */
  lemma {:induction false} EqualKeysEqualTextsIff(o: Origin, o': Origin, digest: string -> string)
    requires Injective(digest) && Key(Made(o, digest)) == Key(Made(o', digest))
    requires PlainFields(Made(o, digest)) && PlainFields(Made(o', digest))
    requires Bars(Made(o, digest).path) == Bars(Made(o', digest).path)
    ensures Made(o, digest).searchText == Made(o', digest).searchText <==> Omitted(o) == Omitted(o')
  {
    hide Key, Made, Around, Omitted, PlainFields, Bars;
    var c, d := Made(o, digest), Made(o', digest);
    SearchTextIs(o, digest);
    SearchTextIs(o', digest);
    KeyFieldsIff(c, d);
    assert Names(c) == Names(d) by { NamesOfEqual(c, d); }
    hide Names;
    AroundIsInjective(Names(c), Omitted(o), Omitted(o'), Present([Some(c.exactContent)]));
  }

  lemma {:induction false} NamesOfEqual(c: Chunk, d: Chunk)
    requires c.path == d.path && OrElse(c.qualifiedName, "") == OrElse(d.qualifiedName, "")
    ensures Names(c) == Names(d)
  {
    PresentOfTwo(Some(c.path), c.qualifiedName);
    PresentOfTwo(Some(d.path), d.qualifiedName);
  }

  function Listed(name: Option<string>): seq<string> {
    if OrElse(name, "") == "" then [] else [OrElse(name, "")]
  }

  lemma {:induction false} PresentOfTwo(a: Option<string>, b: Option<string>)
    ensures Present([a, b]) == Listed(a) + Listed(b)
  {
    var second := [b];
    assert [a, b][1..] == second && second[1..] == [];
    assert Present(second) == Listed(b) + Present([]);
    assert Present([a, b]) == Listed(a) + Present(second);
  }

  // ----- Where the chunks of a build come from -----

  function SymbolOrigins(revision: string, file: File, parsed: Parsed, symbol: Symbol, lim: Limits): seq<Origin>
    requires lim.maxLines >= 1
  {
    var parts := Split(SourceText(file.Text(), symbol), lim);
    seq(|parts|, i requires 0 <= i < |parts| =>
      OfSymbol(revision, file.path, parsed.imports, symbol, parts[i], i + 1, |parts|))
  }

  function FirstOrigins(revision: string, file: File, parsed: Parsed, lim: Limits, k: nat): seq<Origin>
    requires lim.maxLines >= 1 && k <= |parsed.symbols|
  {
    if k == 0 then []
    else FirstOrigins(revision, file, parsed, lim, k - 1)
         + SymbolOrigins(revision, file, parsed, parsed.symbols[k - 1], lim)
  }

  function FileOrigins(revision: string, file: File, parsed: Parsed, lim: Limits): seq<Origin>
    requires lim.maxLines >= 1
  {
    if parsed.symbols == [] then [OfFile(revision, file, parsed)]
    else FirstOrigins(revision, file, parsed, lim, |parsed.symbols|)
  }

  function AllOrigins(revision: string, files: seq<File>, parse: Parser, lim: Limits): seq<Origin>
    requires lim.maxLines >= 1
  {
    if files == [] then []
    else
      var last := files[|files| - 1];
      AllOrigins(revision, files[..|files| - 1], parse, lim)
        + FileOrigins(revision, last, parse(last.path, last.Text()), lim)
  }

  ghost predicate MadeFrom(chunks: seq<Chunk>, origins: seq<Origin>, digest: string -> string) {
    |chunks| == |origins| && forall i :: 0 <= i < |chunks| ==> chunks[i] == Made(origins[i], digest)
  }

  lemma {:induction false} MadeFromConcat(a: seq<Chunk>, b: seq<Chunk>, x: seq<Origin>, y: seq<Origin>,
                                          digest: string -> string)
    requires MadeFrom(a, x, digest) && MadeFrom(b, y, digest)
    ensures MadeFrom(a + b, x + y, digest)
  {
    hide Made;
  }

  lemma {:induction false} SymbolChunksOrigins(revision: string, file: File, parsed: Parsed, symbol: Symbol,
                                               lim: Limits, digest: string -> string)
    requires lim.maxLines >= 1
    ensures MadeFrom(SymbolChunks(revision, file, parsed, symbol, lim, digest),
                     SymbolOrigins(revision, file, parsed, symbol, lim), digest)
  {
    hide Split, SourceText, PartChunk;
  }

  lemma {:induction false} FirstOriginsSteps(revision: string, file: File, parsed: Parsed, lim: Limits, k: nat)
    requires lim.maxLines >= 1 && k <= |parsed.symbols|
    ensures var first := FirstOrigins(revision, file, parsed, lim, k);
            if k == 0 then first == []
            else first == FirstOrigins(revision, file, parsed, lim, k - 1)
                        + SymbolOrigins(revision, file, parsed, parsed.symbols[k - 1], lim)
  {
    hide SymbolOrigins;
  }

  lemma {:induction false} NothingIsMade(digest: string -> string)
    ensures MadeFrom([], [], digest)
  {
  }

  lemma {:induction false} FirstChunksOrigins(revision: string, file: File, parsed: Parsed, lim: Limits,
                                              digest: string -> string, k: nat)
    requires lim.maxLines >= 1 && k <= |parsed.symbols|
    ensures MadeFrom(ChunksOfFirst(revision, file, parsed, lim, digest, k),
                     FirstOrigins(revision, file, parsed, lim, k), digest)
  {
    hide *;
    FirstSteps(revision, file, parsed, lim, digest, k);
    FirstOriginsSteps(revision, file, parsed, lim, k);
    if k == 0 {
      NothingIsMade(digest);
    } else {
      FirstChunksOrigins(revision, file, parsed, lim, digest, k - 1);
      SymbolChunksOrigins(revision, file, parsed, parsed.symbols[k - 1], lim, digest);
      MadeFromConcat(ChunksOfFirst(revision, file, parsed, lim, digest, k - 1),
                     SymbolChunks(revision, file, parsed, parsed.symbols[k - 1], lim, digest),
                     FirstOrigins(revision, file, parsed, lim, k - 1),
                     SymbolOrigins(revision, file, parsed, parsed.symbols[k - 1], lim), digest);
    }
  }

  lemma {:induction false} FileChunksOrigins(revision: string, file: File, parsed: Parsed, lim: Limits,
                                             digest: string -> string)
    requires lim.maxLines >= 1
    ensures MadeFrom(Materialize(revision, file, parsed, lim, digest), FileOrigins(revision, file, parsed, lim), digest)
  {
    hide WholeFileChunk, ChunksOfFirst, FirstOrigins;
    FirstChunksOrigins(revision, file, parsed, lim, digest, |parsed.symbols|);
  }

  /** Every chunk of a build is made from its origin. */
  lemma {:induction false} AllChunksOrigins(revision: string, files: seq<File>, parse: Parser, lim: Limits,
                                            digest: string -> string)
    requires lim.maxLines >= 1
    ensures MadeFrom(AllChunks(revision, files, parse, lim, digest), AllOrigins(revision, files, parse, lim), digest)
  {
    hide Materialize, FileOrigins, Made;
    if files != [] {
      hide MadeFrom;
      var front, last := files[..|files| - 1], files[|files| - 1];
      AllChunksOrigins(revision, front, parse, lim, digest);
      FileChunksOrigins(revision, last, parse(last.path, last.Text()), lim, digest);
      MadeFromConcat(AllChunks(revision, front, parse, lim, digest),
                     Materialize(revision, last, parse(last.path, last.Text()), lim, digest),
                     AllOrigins(revision, front, parse, lim),
                     FileOrigins(revision, last, parse(last.path, last.Text()), lim), digest);
    }
  }

  // ----- When an incremental build is exact -----

  /** The row that the dictionary of previous rows keeps for a key: the last one. */
  function LastWithKey(rows: seq<Stored>, key: string): (i: nat)
    requires key in KeyMap(rows)
    ensures i < |rows| && rows[i] == KeyMap(rows)[key] && Key(rows[i].chunk) == key
  {
    if Key(rows[|rows| - 1].chunk) == key then |rows| - 1 else LastWithKey(rows[..|rows| - 1], key)
  }

  /** For every reused chunk, what the key omits is what it was when the reused vector was computed. */
  ghost predicate OmittedPartsKept(rows: seq<Stored>, olds: seq<Origin>, chunks: seq<Chunk>, news: seq<Origin>)
    requires |olds| == |rows| && |news| == |chunks|
  {
    forall k :: 0 <= k < |chunks| && Reuses(KeyMap(rows), chunks[k]) ==>
      Omitted(olds[LastWithKey(rows, Key(chunks[k]))]) == Omitted(news[k])
  }

  ghost predicate AllPlain(chunks: seq<Chunk>) {
    forall i :: 0 <= i < |chunks| ==> PlainFields(chunks[i])
  }

  /** No key of a new chunk is also that of a previous row whose path has another number of separators. */
  ghost predicate KeysAreClear(rows: seq<Stored>, chunks: seq<Chunk>) {
    forall i, k :: 0 <= i < |rows| && 0 <= k < |chunks| && Key(rows[i].chunk) == Key(chunks[k]) ==>
      Bars(rows[i].chunk.path) == Bars(chunks[k].path)
  }

  /** So it is when no name holds the separator, and when every name follows its path. */
  lemma {:induction false} KeysAreClearWhen(rows: seq<Stored>, chunks: seq<Chunk>)
    requires (forall i :: 0 <= i < |rows| ==> PlainFields(rows[i].chunk)) && AllPlain(chunks)
    requires || ((forall i :: 0 <= i < |rows| ==> NoBar(Name(rows[i].chunk)))
                 && (forall k :: 0 <= k < |chunks| ==> NoBar(Name(chunks[k]))))
             || ((forall i :: 0 <= i < |rows| ==> NameFollowsPath(rows[i].chunk))
                 && (forall k :: 0 <= k < |chunks| ==> NameFollowsPath(chunks[k])))
    ensures KeysAreClear(rows, chunks)
  {
    hide PlainFields, NameFollowsPath, Key, Name, NoBar, Bars;
    forall i, k | 0 <= i < |rows| && 0 <= k < |chunks| && Key(rows[i].chunk) == Key(chunks[k])
      ensures Bars(rows[i].chunk.path) == Bars(chunks[k].path)
    {
      EqualKeysEqualBars(rows[i].chunk, chunks[k]);
    }
  }

  lemma {:induction false} ReusedIsOwnIff(rows: seq<Stored>, was: Origin, i: nat, now: Origin,
                                          digest: string -> string, embed: string -> Vector)
    requires Injective(digest) && i < |rows| && rows[i].embedding.Some? && RowsExact(rows, embed)
    requires rows[i].chunk == Made(was, digest) && Key(Made(was, digest)) == Key(Made(now, digest))
    requires PlainFields(Made(was, digest)) && PlainFields(Made(now, digest))
    requires Bars(Made(was, digest).path) == Bars(Made(now, digest).path)
    requires forall x, y :: embed(x) == embed(y) ==> x == y
    ensures rows[i].embedding == Some(embed(Made(now, digest).searchText)) <==> Omitted(was) == Omitted(now)
  {
    hide Key, Made, Omitted, PlainFields, Bars;
    EqualKeysEqualTextsIff(was, now, digest);
  }

  /**
   Exactly when an incremental build stores what a full rebuild would: the signature, docstring and imports
   (or the module name of a file without symbols) of every reused chunk are, as written, those of the chunk
   the vector was computed for.
   */
  lemma {:induction false} ExactIffOmittedPartsKept(olds: seq<Origin>, rows: seq<Stored>, news: seq<Origin>,
                                                    chunks: seq<Chunk>, digest: string -> string, provider: Provider,
                                                    embed: string -> Vector, size: nat, dimensions: int)
    requires size >= 1 && Exact(provider, embed) && Injective(digest) && RowsExact(rows, embed)
    requires forall x, y :: embed(x) == embed(y) ==> x == y
    requires |rows| == |olds| && forall i :: 0 <= i < |rows| ==>
               rows[i].chunk == Made(olds[i], digest) && PlainFields(rows[i].chunk)
    requires MadeFrom(chunks, news, digest) && AllPlain(chunks) && KeysAreClear(rows, chunks)
    ensures BuildIsExact(chunks, KeyMap(rows), provider, size, dimensions) <==>
              OmittedPartsKept(rows, olds, chunks, news)
  {
    hide Key, Made, Omitted, PlainFields, Computed, FinalVector, KeyMap, Injective, Bars;
    IncrementalIsExactIff(chunks, KeyMap(rows), provider, embed, size, dimensions);
    forall k | 0 <= k < |chunks| && Reuses(KeyMap(rows), chunks[k])
      ensures KeyMap(rows)[Key(chunks[k])].embedding == Some(embed(chunks[k].searchText))
         <==> Omitted(olds[LastWithKey(rows, Key(chunks[k]))]) == Omitted(news[k])
    {
      var i := LastWithKey(rows, Key(chunks[k]));
      ReusedIsOwnIff(rows, olds[i], i, news[k], digest, embed);
    }
  }

  /** The same for two builds of a repository, the second reusing the rows of the first. */
  lemma {:induction false} NextBuildIsExactIff(oldRevision: string, oldFiles: seq<File>, rows: seq<Stored>,
                                               revision: string, files: seq<File>, parse: Parser, lim: Limits,
                                               digest: string -> string, provider: Provider, embed: string -> Vector,
                                               size: nat, dimensions: int)
    requires lim.maxLines >= 1 && size >= 1 && Exact(provider, embed) && Injective(digest)
    requires forall x, y :: embed(x) == embed(y) ==> x == y
    requires var before := AllChunks(oldRevision, oldFiles, parse, lim, digest);
             AllPlain(before) && Builds(before, map[], provider, size, dimensions, rows)
    requires var chunks := AllChunks(revision, files, parse, lim, digest);
             AllPlain(chunks) && KeysAreClear(rows, chunks)
    ensures |rows| == |AllOrigins(oldRevision, oldFiles, parse, lim)|
    ensures var chunks := AllChunks(revision, files, parse, lim, digest);
            && |chunks| == |AllOrigins(revision, files, parse, lim)|
            && (BuildIsExact(chunks, KeyMap(rows), provider, size, dimensions) <==>
                OmittedPartsKept(rows, AllOrigins(oldRevision, oldFiles, parse, lim), chunks,
                                 AllOrigins(revision, files, parse, lim)))
  {
    hide Key, Made, Omitted, PlainFields, Computed, FinalVector, KeyMap, Injective, AllChunks, AllOrigins;
    hide BuildIsExact, OmittedPartsKept, Exact, KeysAreClear;
    var before := AllChunks(oldRevision, oldFiles, parse, lim, digest);
    AllChunksOrigins(oldRevision, oldFiles, parse, lim, digest);
    AllChunksOrigins(revision, files, parse, lim, digest);
    forall k | 0 <= k < |rows| ensures rows[k] == Stored(before[k], Some(embed(before[k].searchText))) {
      FirstBuildIsOwn(before, provider, embed, size, dimensions, k);
    }
    ExactIffOmittedPartsKept(AllOrigins(oldRevision, oldFiles, parse, lim), rows,
                             AllOrigins(revision, files, parse, lim),
                             AllChunks(revision, files, parse, lim, digest), digest, provider, embed, size, dimensions);
  }

  lemma {:induction false} FirstBuildIsOwn(chunks: seq<Chunk>, provider: Provider, embed: string -> Vector, size: nat,
                                           dimensions: int, k: nat)
    requires size >= 1 && Exact(provider, embed) && k < |chunks|
    ensures FinalVector(chunks, map[], Computed(chunks, map[], provider, size), dimensions, k)
            == Some(embed(chunks[k].searchText))
  {
    hide Computed, Key;
    ComputedIsOwn(chunks, map[], provider, embed, size, dimensions, k);
  }

  /**
   The key hypothesis cannot be dropped: when a symbol keeps its kind, name and text but a part the key
   omits changes its embedding, the new version is stored with the vector of the old one.
   */
  lemma {:induction false} StaleVector(path: string, a: Symbol, imports: seq<string>, b: Symbol,
                                       imports': seq<string>, part: Part, digest: string -> string,
                                       embed: string -> Vector, provider: Provider, size: nat, dimensions: int)
    requires size >= 1 && a.kind == b.kind && a.qualifiedName == b.qualifiedName
    requires embed(SymbolSearchText(path, imports, a, part.text))
             != embed(SymbolSearchText(path, imports', b, part.text))
    ensures var before := PartChunk("r1", path, imports, a, part, 1, 1, digest);
            var after := PartChunk("r2", path, imports', b, part, 1, 1, digest);
            var rows := [Stored(before, Some(embed(before.searchText)))];
            && RowsExact(rows, embed)
            && FinalVector([after], KeyMap(rows), Computed([after], KeyMap(rows), provider, size), dimensions, 0)
               != Some(embed(after.searchText))
  {
    hide Computed, SymbolSearchText, JoinWith, Decimal, ChunkId;
    var before := PartChunk("r1", path, imports, a, part, 1, 1, digest);
    var row := Stored(before, Some(embed(before.searchText)));
    assert [row][..0] == [];
    assert KeyMap([row]) == map[Key(before) := row];
  }

  /** Such a change exists: a new docstring changes the search text and leaves the key alone. */
  lemma {:induction false} DocstringChangesText()
    ensures SymbolSearchText("p", [], Symbol("function", "f", "f", 1, 1, None, Some("old")), "x")
         != SymbolSearchText("p", [], Symbol("function", "f", "f", 1, 1, None, Some("new")), "x")
  {
    SearchTextOfFour("p", "f", "old", "x");
    SearchTextOfFour("p", "f", "new", "x");
    hide SymbolSearchText;
    var x, y := "p" + "\n" + ("f" + "\n" + ("old" + "\n" + "x")), "p" + "\n" + ("f" + "\n" + ("new" + "\n" + "x"));
    assert x[4] == 'o' && y[4] == 'n';
  }

  lemma {:induction false} SearchTextOfFour(path: string, name: string, docstring: string, text: string)
    requires path != "" && name != "" && docstring != "" && text != ""
    ensures SymbolSearchText(path, [], Symbol("function", name, name, 1, 1, None, Some(docstring)), text)
         == path + "\n" + (name + "\n" + (docstring + "\n" + text))
  {
    var all: seq<Option<string>> := [Some(path), Some(name), None, Some(docstring), Some(""), Some(text)];
    assert Present(all[5..]) == [text];
    assert Present(all[4..]) == [text] by { assert all[4..][1..] == all[5..]; }
    assert Present(all[3..]) == [docstring, text] by { assert all[3..][1..] == all[4..]; }
    assert Present(all[2..]) == [docstring, text] by { assert all[2..][1..] == all[3..]; }
    assert Present(all[1..]) == [name, docstring, text] by { assert all[1..][1..] == all[2..]; }
    assert Present(all) == [path, name, docstring, text];
    assert Join([docstring, text]) == docstring + "\n" + text by { assert [docstring, text][1..] == [text]; }
    assert Join([name, docstring, text]) == name + "\n" + (docstring + "\n" + text) by {
      assert [name, docstring, text][1..] == [docstring, text];
    }
    assert [path, name, docstring, text][1..] == [name, docstring, text];
  }
}
